# Deployment monitor: a verified model

The deployment monitor watches many clusters for rollouts, records each one as a custom resource, dispatches it to
targets, and analyses how the rollout went. This project models its stateful components and proves what they keep over
all runs. `dafny verify dfyconfig.toml` checks all of it.

| files | component |
|---|---|
| `RolloutProtocol`, `RolloutTheorems`, `RecordWatcher`, `TtlCleaner`, `AuditRecorder`, `Dispatcher` | the life of a RolloutRecord between replicas, with compare-and-swap claims, stuck recovery and deletion |
| `AnalyzerModel`, `Analyzer`, `AnalyzerTheorems`, `AnalyzerVerdicts`, `LogFilter` | the rollout analyzer's poll loop and soak, and the filter of error lines |
| `HashStoreModel`, `HashStoreCode`, `ClusterWatcher`, `Names` | the write-back buffer of template hashes and the watcher that feeds it |
| `DebouncerModel`, `DebouncerLaws`, `Debouncer` | one pending event and one timer per deployment |
| `WatchlistModel`, `WatchlistLaws`, `Watchlist` | app registrations and their lookup index |
| `ManagerModel`, `Manager` | the reconcile pass over the watchers of all clusters |
| `OrchestratorModel`, `Orchestrator` | bounded, superseding investigations |

Each component is a state machine on values: a `Step` for every atomic section of the code and `Exec` for a run, so that
a theorem about `Exec` speaks of every interleaving. Beside it stands a class with the fields of the Go type, whose
methods are proved to do exactly such steps. What other goroutines or replicas do while a method does not hold its lock,
or waits for the API server, is a parameter of the method: any sequence of steps. Replies of the API server, clock
readings, and successes and failures of calls are parameters too; a write may be applied and still report an error.

## Where code and promise differ

Where a promise of the documentation or of a comment is not kept, the code is modelled as it is, and the exact
condition is proved.

- `docs/architecture.md:106` promises a reset after ten minutes in Processing; the code counts from creation
  (`ResetPromiseIff`, `EarlyResetDispatchesTwice`).
- The RolloutRecord definition enables the status subresource, which makes an API server ignore the status of a Create;
  the recorder relies on it (`CreateDecidesIff`). Both behaviours are modelled.
- A failing target with an empty message counts as a success (`EmptyErrorMeansSuccessIff`), and a record that is
  dispatched after a failed attempt keeps the earlier message.
- Split mode loses the app, the Slack channel and the fraction of the second (`EventSurvivesRecordIff`).
- `docs/architecture.md:46` and `docs/architecture.md:114` promise gap detection on the initial list; the add handler
  never compares (`GapDetectedIff`).
- The debouncer's window of inactivity is not kept when an event arrives as the timer of its key expires
  (`WindowKeptIff`), and only the last of the coalesced events is forwarded (`OneFate`).
- Forward progress is measured against the previous poll, not the best one (`ProgressBelowBestIff`), so a deployment
  that swings between two states is found stalled only when polls are sparse (`SwingStallsIff`).
- A kubeconfig file that disappears while its cluster is queued, or appears while the manager starts, can leave a cluster
  unwatched (`LostFromStartupIff`). Retries, the watchlist, starts whose sync times out, and a startup whose list and
  snapshot differ lead to further live watchers of one cluster (`LeaksNeverIff`). An edit that is undone between rescans,
  or made while the manager starts, can leave another configuration running than the file says (`RunsListedIff`,
  `StartupRepairedIff`).
- "A new rollout cancels any in-flight investigation" fails after a late cleanup (`TrackedKeptIff`), and Stop may return
  before an investigation that it did not wait for (`StopIsFinalIff`).
- `sanitizeName` is neither idempotent nor injective (`IdempotentIff`, `CollideIff`), so that cluster states are mixed
  up where names collide (`NamesApartNeeded`, `NamesApartIff`), and registrations survive a restart over all runs only if
  sanitizing leaves every app name alone (`RestartKeepsAppsIff`); that the names still registered are left alone is not
  enough (`CollidingNamesLose`).
- A lost reply leaves the watchlist's resources ahead of its memory (`MirrorKeptIff`).
- An annotated log line can read like another line of the log (`AnnotatedDistinctIff`).

## Model

| member | source | states |
|---|---|---|
| RolloutTheorems.ClaimsBounded | internal/dispatch/record_watcher.go:113-138 | In every run of any number of replicas with arbitrarily stale snapshots and ambiguous writes, the claims applied to a record number at most its applied resets, plus one once the record has left Detected; and DispatchEvent runs for it at most once per applied claim |
| RolloutTheorems.YoungRecordDispatchedOnce | internal/dispatch/record_watcher.go:81-111 | Until a record is old enough to be reset its event is dispatched at most once, whatever the replicas do |
| RolloutTheorems.TerminalAbsorbs | internal/dispatch/record_watcher.go:160-188 | From every reachable world, no continuation takes a stored Dispatched or Failed record back to Detected or Processing: no stale claim, stale reset or late finish does |
| RolloutTheorems.DeletedWasTerminal | internal/dispatch/ttl_cleaner.go:60-94 | Every deletion, although decided from an older List and sent by name without a version, removed a record that was terminal and past its time to live at that instant |
| RolloutTheorems.TerminalWasReported | internal/dispatch/record_watcher.go:174-181 | A terminal status was returned by a run of DispatchEvent for that very record: Dispatched needs a run without an error, and a Failed record names the error of a run |
| RolloutTheorems.NoRecordIsLost | internal/dispatch/record_watcher.go:208-246 | From every reachable world, whatever crashed, every Detected or Processing record can still be driven to the terminal phase of any given dispatch result |
| RolloutTheorems.DroppedStatusNeverDispatched | chart/deploy-monitor/crds/rolloutrecords.yaml:81-82 | When the server drops the status sent with every Create of a name, as a status subresource makes it do, and no combined-mode run finishes the record, it never has a phase, no claim of it is ever applied and its event is never dispatched |
| RolloutTheorems.CreateDecidesIff | internal/persistence/audit_recorder.go:55-60 | From every reachable world a newly created record can come to be claimed and dispatched, by some continuation, exactly when the server keeps the status sent with its creation |
| RolloutTheorems.UnclaimableForever | internal/dispatch/record_watcher.go:88-92 | A record never seen Detected or Processing is never claimed or dispatched in split mode, whatever else happens to it |
| RolloutTheorems.ResetAllowedAfter | internal/dispatch/record_watcher.go:224-229 | A Processing record can be reset d seconds from now exactly when it will then be ten minutes old, counted from its creation |
| RolloutTheorems.ResetPromiseIff | docs/architecture.md:106 | The documented promise of more than ten minutes in Processing: from a reachable world, no continuation of an acknowledged claim resets the record within ten minutes of it exactly when the record was created in the second of the claim |
| RolloutTheorems.EarlyResetDispatchesTwice | internal/dispatch/record_watcher.go:224-236 | A reachable world in which a ten-minute-old record was dispatched twice without any wait and is Dispatched with the error message of the other run |
| RolloutTheorems.ReachableInv | internal/dispatch/record_watcher.go:81-246 | Every reachable world has the inductive invariant: a snapshot whose version is the stored one has the stored content, terminal phases absorb, handlers, claims and resets are accounted for |
| RolloutTheorems.StepKeepsInv | internal/dispatch/record_watcher.go:81-246 | One protocol step of any replica keeps that invariant |
| RolloutProtocol.StepKeepsDb | internal/dispatch/record_watcher.go:127-138 | A step keeps the agreement of snapshots and store and the absorption of terminal phases |
| RolloutProtocol.StepKeepsHandlers | internal/dispatch/record_watcher.go:94-111 | A step keeps every handler thread sound: it holds a claim of an existing record, or a result that DispatchEvent returned |
| RolloutProtocol.StepPays | internal/dispatch/record_watcher.go:94-111 | Each run of DispatchEvent is paid for by an applied claim whose handler has not run yet |
| RolloutProtocol.StepSpends | internal/dispatch/record_watcher.go:113-138 | How each step changes the claims, resets and phase of one record |
| RolloutProtocol.StepKeepsClaims | internal/dispatch/record_watcher.go:113-138 | A step keeps the count: claims of a record are at most its resets plus one if it has left Detected |
| RolloutProtocol.StepKeepsRemovals | internal/dispatch/ttl_cleaner.go:74-88 | A step keeps: every removal so far hit a terminal record past its time to live |
| RecordWatcher.RecordWatcher.ClaimRecord | internal/dispatch/record_watcher.go:113-138 | One compare-and-swap to Processing that changes nothing else; success exactly when the write applied and was acknowledged |
| RecordWatcher.RecordWatcher.HandleRecord | internal/dispatch/record_watcher.go:81-111 | Skips all but Detected snapshots; a claimed event is dispatched and its result reported; run alone on a stored Detected record with acknowledged writes it dispatches once and ends it Dispatched exactly when no error is returned, else Failed, with the targets that succeeded; and it is an interleaving of protocol steps with other replicas between any two calls |
| RecordWatcher.RecordWatcher.DispatchClaimed | internal/dispatch/record_watcher.go:103-110 | The holder of a claim dispatches once, and records exactly the targets and error it was told |
| RecordWatcher.RecordWatcher.UpdateRecordStatus | internal/dispatch/record_watcher.go:160-188 | When the record read back is still stored and the write is not refused, the stored record gets phase Failed and the error, or Dispatched and the error it had, with the targets and the time of the write, and nothing else changes; otherwise nothing does |
| RecordWatcher.RecordWatcher.DoRecoverStuck | internal/dispatch/record_watcher.go:208-246 | Tries exactly the listed Processing records at least ten minutes old; on a fresh list with nothing in between, exactly these end as Detected; and it is an interleaving of protocol steps |
| RecordWatcher.StuckNamesIff | internal/dispatch/record_watcher.go:217-229 | A name is tried exactly when the list shows a record of it in Processing whose creation is ten minutes past |
| RecordWatcher.RecoveredAlone | internal/dispatch/record_watcher.go:217-245 | A scan of a fresh list that nothing disturbs puts exactly the stuck records back and leaves every other record alone |
| RecordWatcher.HandledAlone | internal/dispatch/record_watcher.go:94-111 | A claim, a run and a finish with nothing in between leave the outcome of that run on the record |
| RecordWatcher.OthersLead | internal/dispatch/record_watcher.go:81-111 | What other replicas do among themselves they may also do while one handler is suspended |
| RecordWatcher.RecordedLeads | internal/dispatch/record_watcher.go:160-188 | Reading a record back and writing the outcome, or giving up, are steps of the protocol in either mode, with others in between |
| TtlCleaner.TtlCleaner.Cleanup | internal/dispatch/ttl_cleaner.go:60-99 | Deletes by name what an earlier List showed terminal and expired, with others between the deletions; every removal hits a record that is terminal and old enough then; on a fresh list with nothing in between exactly the expired records go, and the count is theirs |
| TtlCleaner.CountedAtMost | internal/dispatch/ttl_cleaner.go:69-93 | The reported count is at most the number of expired records listed |
| TtlCleaner.CleanedAlone | internal/dispatch/ttl_cleaner.go:71-94 | A cleanup of a fresh list that nothing disturbs removes exactly the expired records and counts them |
| TtlCleaner.ExpiredNamesIff | internal/dispatch/ttl_cleaner.go:74-84 | A name is expired exactly when the list shows a record of it, Dispatched or Failed, that is at least as old as the time to live |
| TtlCleaner.DeleteLeads | internal/dispatch/ttl_cleaner.go:86-93 | A deletion decided from an old snapshot is a protocol step |
| AuditRecorder.AuditRecorder.RecordRollout | internal/persistence/audit_recorder.go:32-74 | Creates the record with the present time, phase Detected if the server keeps it, and nothing else set; reports an existing one as a success and leaves it alone; a protocol step when the name was not used and deleted before |
| AuditRecorder.AuditRecorder.UpdateRecordStatus | internal/persistence/audit_recorder.go:77-99 | Sets whatever phase, targets and error it is given on what it read, by compare-and-swap; nothing if the read fails |
| AuditRecorder.AuditRecorder.OnDispatched | cmd/monitor/main.go:241-247 | The combined-mode callback picks the phase from the error and ends the local run's handler as steps of the protocol |
| AuditRecorder.EventSurvivesRecordIff | internal/dispatch/record_watcher.go:141-157 | Split mode dispatches the event that was detected exactly when it had no app, no Slack channel and a timestamp of whole seconds |
| Dispatcher.DispatchEvent | internal/dispatch/dispatcher.go:72-88 | Tries every target and returns the names that succeeded, in order, and the message of the last failure |
| Dispatcher.SucceededExactly | internal/dispatch/dispatcher.go:74-87 | The names returned are exactly those of the targets that did not fail |
| Dispatcher.SucceededInOrder | internal/dispatch/dispatcher.go:74-85 | They come in the order of the targets, once for each success |
| Dispatcher.FinalErrorIsLast | internal/dispatch/dispatcher.go:74-87 | The error returned is the message of the last failure, and empty when there was none |
| Dispatcher.LastFailureUnique | internal/dispatch/dispatcher.go:74-87 | There is at most one last failure |
| Dispatcher.EmptyErrorMeansSuccessIff | internal/dispatch/record_watcher.go:174-179 | The empty error, which leads to Dispatched, means that every target succeeded exactly unless the last failure has an empty message |
| AnalyzerTheorems.ProgressClockExact | internal/diagnostic/analyzer.go:79-88 | Over every trace of polls the progress clock is the time of the latest poll whose generation lagged or whose counts moved forward since the previous evaluated poll, and the start if there is none |
| AnalyzerTheorems.LastProgressIsLatest | internal/diagnostic/analyzer.go:118-166 | The recursive definition of the last progress time is that of the last such poll |
| AnalyzerTheorems.StateExact | internal/diagnostic/analyzer.go:117-143 | After any undecided trace the loop's variables are functions of the trace: previous counts, progress clock, stuck-container timer, paused flag |
| AnalyzerTheorems.ContinueEffect | internal/diagnostic/analyzer.go:145-205 | What a tick that does not end the loop does to each variable |
| AnalyzerTheorems.StalledIff | internal/diagnostic/analyzer.go:132-205 | Past the deadline STALLED comes exactly when the latest current poll was not paused and the last progress moment is at least the inactivity timeout old; before it, exactly when an evaluated poll shows none of the failure conditions and the silence is longer than the timeout |
| AnalyzerTheorems.FailedIff | internal/diagnostic/analyzer.go:219-312 | Before the deadline a poll ends as FAILED exactly when it shows ProgressDeadlineExceeded, a stuck container in a streak of stuck listings that began at least the window ago (or a second one, if there is no window), or too many restarts soon after the last progress moment |
| AnalyzerVerdicts.EnterSoakIff | internal/diagnostic/analyzer.go:132-214 | The soak begins exactly with a poll in time of a caught-up, unpaused deployment that shows no failure condition and no longer silence, and has as many replicas updated and available as asked for (one by default) and none unavailable |
| AnalyzerVerdicts.ContinueIff | internal/diagnostic/analyzer.go:132-215 | Polling goes on exactly after a poll in time that failed to fetch, found the controller lagging or the deployment paused, or showed no failure, no long silence and no deployment at its target |
| AnalyzerVerdicts.SuccessIff | internal/diagnostic/analyzer.go:132-404 | A run ends as SUCCESS exactly when its deciding poll begins the soak and afterwards the deployment is fetched at its target and, where pods are listed, no container of the snapshot has restarted and no pod is unready |
| AnalyzerVerdicts.UnstableIff | internal/diagnostic/analyzer.go:345-401 | A run ends as UNSTABLE exactly when the soak begins and one of these is found afterwards |
| AnalyzerVerdicts.SoakVerdictIff | internal/diagnostic/analyzer.go:315-404 | Each verdict of a soak, the two kinds of INCONCLUSIVE included, as an exact condition on its observations |
| AnalyzerVerdicts.DeletedIff | internal/diagnostic/analyzer.go:145-149 | DELETED exactly when a poll in time finds no deployment |
| AnalyzerVerdicts.CancelledIff | internal/diagnostic/analyzer.go:126-130 | INCONCLUSIVE for a cancelled context exactly on a cancelled context |
| AnalyzerVerdicts.PausedIff | internal/diagnostic/analyzer.go:133-137 | PAUSED exactly on a poll past the deadline when the latest current poll was paused |
| AnalyzerVerdicts.StillProgressingIff | internal/diagnostic/analyzer.go:138-141 | INCONCLUSIVE for progress exactly past the deadline, unpaused, with progress younger than the inactivity timeout |
| AnalyzerVerdicts.RolloutTimedOutIff | internal/diagnostic/analyzer.go:227-237 | FAILED with ProgressDeadlineExceeded exactly when the condition is listed, before anything else is looked at |
| AnalyzerVerdicts.PersistedIff | internal/diagnostic/analyzer.go:261-291 | FAILED for a stuck container exactly when one is stuck for too long and the condition is not listed; the container named is the first listed, or the second if the timer starts on the same poll |
| AnalyzerVerdicts.TooManyRestartsIff | internal/diagnostic/analyzer.go:306-309 | FAILED for n restarts exactly when n is their number, at least the threshold, soon after progress, and no other failure is found |
| AnalyzerVerdicts.StuckListed | internal/diagnostic/analyzer.go:263-280 | The stuck containers are those, init containers included, that wait for a reason neither empty nor ContainerCreating and were never restarted |
| AnalyzerVerdicts.RestartsAdd | internal/diagnostic/analyzer.go:261-291 | Restarts add up over pods |
| AnalyzerVerdicts.ContainersAdd | internal/diagnostic/analyzer.go:264-289 | Restarts add up over containers |
| AnalyzerVerdicts.OnePodRestarts | internal/diagnostic/analyzer.go:264-289 | A pod has the restarts of its init containers and containers, a container its own |
| AnalyzerVerdicts.SnapshotNames | internal/diagnostic/analyzer.go:327-331 | The snapshot names the containers of the listed pods, not their init containers, and nothing else |
| AnalyzerTheorems.DeadlineVerdict | internal/diagnostic/analyzer.go:132-143 | Past the deadline: PAUSED exactly when the latest generation-current poll was paused, else INCONCLUSIVE exactly while progress is younger than the inactivity timeout, else STALLED |
| AnalyzerTheorems.PausedAfterIff | internal/diagnostic/analyzer.go:157-176 | The paused flag is set exactly when the most recent fetched, generation-current poll was paused |
| AnalyzerTheorems.TimerRunsIff | internal/diagnostic/analyzer.go:282-304 | The stuck-container timer runs exactly when the last poll that listed pods had a stuck container |
| AnalyzerTheorems.TimerSinceStreak | internal/diagnostic/analyzer.go:239-304 | A running timer shows the time of the poll that started the present streak of stuck listings; failed lookups neither start, advance nor reset it |
| AnalyzerTheorems.StreakTimer | internal/diagnostic/analyzer.go:282-304 | Conversely, a streak of stuck listings is what the timer measures |
| AnalyzerTheorems.PersistedSound | internal/diagnostic/analyzer.go:261-291 | FAILED for a persisting waiting reason: the deciding poll lists such a container in a streak of stuck listings that began at least the window ago |
| AnalyzerTheorems.PersistedComplete | internal/diagnostic/analyzer.go:282-287 | Every poll, up to the deadline, that lists a stuck container in a streak begun on an earlier poll at least the window ago reports it |
| AnalyzerTheorems.SuccessSound | internal/diagnostic/analyzer.go:207-214 | SUCCESS implies a poll no later than the deadline that was current, unpaused, free of every failure condition and converged, then a soak after which it is still converged and its listed pods healthy against the snapshot |
| AnalyzerTheorems.SnapshotHolds | internal/diagnostic/analyzer.go:321-333 | The snapshot before the soak holds the restart count of every container whose pod and container name occur once |
| AnalyzerTheorems.SuccessMeansNoRestart | internal/diagnostic/analyzer.go:370-398 | After SUCCESS no container that the listing before the soak names once, and that the listing after it names, has more restarts than before |
| AnalyzerTheorems.BestSoFar | internal/diagnostic/analyzer.go:81-88 | The best counts are defined as soon as a poll was evaluated, and no evaluated poll, the last one included, is forward of them |
| AnalyzerTheorems.ProgressBelowBestIff | internal/diagnostic/analyzer.go:81-88 | Some next evaluated poll counts as progress without beating the best counts so far exactly when the previous counts are not the best ones |
| AnalyzerTheorems.AlternationStallsIff | internal/diagnostic/analyzer.go:201-205 | For any two count vectors: an evaluated poll that continues their alternation, before the deadline, ends as STALLED exactly when it shows none of the failure conditions and the last upswing is longer ago than the inactivity timeout |
| AnalyzerTheorems.SwingStallsIff | internal/diagnostic/analyzer.go:201-205 | Swinging between two different vectors is found STALLED exactly by a poll that shows none of the failure conditions, is no upswing and comes later than the inactivity timeout after the one before it |
| AnalyzerTheorems.LastUpswingIsProgress | internal/diagnostic/analyzer.go:81-88 | The progress clock of an alternating history shows its last upswing: the last poll or the one before it |
| AnalyzerTheorems.SparsePollsStall | internal/diagnostic/analyzer.go:203-205 | Witness: sparse polls of a thrashing deployment do end as STALLED |
| AnalyzerTheorems.ThrashingIsProgress | internal/diagnostic/analyzer.go:81-88 | Witness: whatever the history, if it is empty or ends recovered, falling back and recovering moves the progress clock to the recovery |
| Analyzer.MonitorRollout | internal/diagnostic/analyzer.go:116-216 | Ends within floor(AbsoluteTimeout / PollInterval) + 1 polls, when tick k comes no earlier than k intervals after the start, on the first tick that is decided, with the verdict of that tick or of the soak it enters, which SuccessIff and the other exact conditions determine |
| Analyzer.OnePoll | internal/diagnostic/analyzer.go:125-214 | One tick does to the loop variables what the specification of a tick says: deadline, fetch, generation gate, paused flag, evaluation |
| Analyzer.EvaluatePoll | internal/diagnostic/analyzer.go:178-214 | Failure conditions before progress, progress before the stall check, the stall check before convergence |
| Analyzer.ProgressState.RecordProgress | internal/diagnostic/analyzer.go:81-88 | Remembers the counts of this poll, and its time exactly if updated or available went up or unavailable went down |
| Analyzer.CheckFailureConditions | internal/diagnostic/analyzer.go:219-312 | The Progressing condition, the stuck containers and the restart threshold, in this order, with the timer as the specification has it |
| Analyzer.CheckNewPods | internal/diagnostic/analyzer.go:261-311 | The scan of the pods: first container that has been stuck for the window, else the timer after the poll and the restart threshold |
| Analyzer.CheckStatuses | internal/diagnostic/analyzer.go:264-290 | The scan of one pod's containers, init containers first: the first one stuck for the window, or the timer and the restarts after the scan |
| Analyzer.Soak | internal/diagnostic/analyzer.go:315-404 | The soak ends with the one verdict that its two observations call for |
| Analyzer.CheckPodsAfterSoak | internal/diagnostic/analyzer.go:375-399 | Finds a restarted or unready pod exactly when there is one |
| LogFilter.FilterErrorLines | internal/diagnostic/analyzer.go:688-716 | The distinct matching lines in order of first occurrence, each annotated with its exact multiplicity when above one |
| LogFilter.CountMatching | internal/diagnostic/analyzer.go:688-707 | The first loop keeps the distinct matching lines and the exact number of occurrences of each |
| LogFilter.MatchesIff | internal/diagnostic/analyzer.go:695-701 | A line is kept exactly when, lowered, it is one of the five words with something before and after it |
| LogFilter.MatchingKeeps | internal/diagnostic/analyzer.go:693-707 | The matching lines are kept as often as they occur, the others not at all |
| LogFilter.MatchingInOrder | internal/diagnostic/analyzer.go:693-707 | The matching lines are kept in the order of the input |
| LogFilter.DecimalMeans | internal/diagnostic/analyzer.go:708-714 | The count is written in decimal notation |
| LogFilter.FirstsInOrder | internal/diagnostic/analyzer.go:693-707 | The lines kept are pairwise different, are all the matching ones, and stand in the order of their first occurrences |
| LogFilter.CountsConserved | internal/diagnostic/analyzer.go:688-726 | The multiplicities add up to the number of matching lines, which is at most the number of lines |
| LogFilter.AnnotationInjective | internal/diagnostic/analyzer.go:708-714 | Two annotated lines that read the same come from the same line and the same count |
| LogFilter.AnnotatedDistinctIff | internal/diagnostic/analyzer.go:708-714 | The result has no duplicates exactly when no line that occurs once reads like the annotation of a repeated one |
| LogFilter.LookalikeLog | internal/diagnostic/analyzer.go:708-714 | Witness: a log in which a single line quotes the annotation of a repeated one, for any lowering that leaves these lines alone |
| HashStoreModel.ExecRefines | internal/persistence/hash_store.go:62-128 | In every interleaving of BufferHash, RemoveHash and flush steps whose writes succeed, fail or apply but report failure, pending over in-flight over persisted equals one plain map with the operations applied in order, given clusters with different resource names |
| HashStoreModel.NamesApartIff | internal/persistence/hash_store.go:133-134 | Clusters have different resource names exactly when no two collide in the sense of CollideIff; names that sanitizing leaves alone never do |
| HashStoreModel.FixedNamesRefine | internal/persistence/hash_store.go:62-128 | The refinement for every set of clusters whose names are already in the form of a resource name, with no further assumption on them |
| HashStoreModel.FlushPersists | internal/persistence/hash_store.go:104-128 | A flush that leaves nothing pending, with no operation beside it, has persisted the view |
| HashStoreModel.StepRefines | internal/persistence/hash_store.go:104-128 | Buffering changes one entry of that view; no step of a flush changes any |
| HashStoreModel.WriteKeepsView | internal/persistence/hash_store.go:132-168 | A write, whatever its outcome, leaves the view alone |
| HashStoreModel.SettledIsPersisted | internal/persistence/hash_store.go:104-128 | With nothing pending or in flight the persisted maps are the view |
| HashStoreModel.NamesApartNeeded | internal/persistence/hash_store.go:133-134 | A write for one cluster leaves another's content alone exactly when their sanitized names differ |
| HashStoreModel.LeadsRefines | internal/persistence/hash_store.go:104-128 | The same refinement for whatever the code's flush is proved to be |
| HashStoreCode.HashStore.Flush | internal/persistence/hash_store.go:104-128 | A whole flush with other goroutines at every unlocked point is one interleaving of the model; alone, it leaves pending just the clusters whose write was not acknowledged, with what they had; and when all are acknowledged nothing is pending and the view from before is persisted |
| HashStoreCode.HashStore.FlushCluster | internal/persistence/hash_store.go:110-127 | One cluster of a flush: written, and put back behind newer values when the write failed |
| HashStoreCode.HashStore.RequeueFailed | internal/persistence/hash_store.go:114-125 | Puts failed updates back without overwriting newer pending values |
| HashStoreCode.HashStore.UpsertClusterState | internal/persistence/hash_store.go:132-183 | Merges the updates into the cluster's resource, or creates it, for each possible outcome of the calls |
| HashStoreCode.ApplyUpdates | internal/persistence/hash_store.go:187-195 | Empty values delete their key and the others replace it |
| HashStoreCode.HashStore.BufferHash | internal/persistence/hash_store.go:62-70 | Buffers a hash: one step of the model |
| HashStoreCode.HashStore.RemoveHash | internal/persistence/hash_store.go:73-82 | Buffers a deletion as an empty value: one step of the model |
| HashStoreCode.HashStore.LoadHashes | internal/persistence/hash_store.go:40-59 | Returns what is persisted, without what is pending |
| Names.SanitizedShape | internal/persistence/names.go:6-17 | A sanitized name is short, normal and starts without a hyphen; only a cut one may end in one |
| Names.FixedIff | internal/persistence/names.go:6-17 | The names that sanitizing leaves unchanged |
| Names.NormalCharIs | internal/persistence/names.go:7-10 | Upper-case letters are lowered, slash, underscore and dot become hyphens, all else stays |
| Names.IdempotentIff | internal/persistence/names.go:11-15 | Sanitizing twice is sanitizing once exactly when the name, stripped of hyphen-like characters at its ends, is at most 63 characters long or has no hyphen-like one at the cut |
| Names.CollideIff | internal/persistence/names.go:6-17 | Any two names share a resource name exactly when, stripped at their ends, they agree up to case and kind of hyphen: in full if short, up to the cut if long |
| Names.ShortNamesCollideIff | internal/persistence/names.go:6-17 | Names of at most 63 characters with nothing to strip collide exactly when they have the same length and agree character by character in that sense |
| Names.CutNamesCollide | internal/persistence/names.go:13-15 | Names that agree up to the cut collide whatever follows |
| Names.TwoPassesSettle | internal/persistence/names.go:11-15 | The third pass never changes anything |
| Names.SanitizeNotIdempotent | internal/persistence/names.go:11-15 | A name cut right after a hyphen is changed again by a second pass |
| Names.SanitizeNotInjective | internal/persistence/names.go:8-10 | Witnesses: names that differ in a dot, underscore or hyphen share a resource name |
| ClusterWatcher.DetectedExactly | internal/watcher/informer.go:197-264 | Over every event sequence and every answer of the namespace filter, a rollout is detected exactly on an allowed update whose key was last left with a different hash, or was seeded with one; it names that key, that hash and the new one |
| ClusterWatcher.RolloutsChain | internal/watcher/informer.go:197-264 | Of two successive rollouts of a key with no handled add or delete between, the later old hash is the earlier new hash |
| ClusterWatcher.CacheExact | internal/watcher/informer.go:172-289 | The cache holds what the last handled event of the key left, or the seed |
| ClusterWatcher.GapDetectedIff | docs/architecture.md:46 | The documented gap detection works exactly when the first handled event of the seeded key is an update; the add of the initial list reports nothing and drops the seed |
| ClusterWatcher.StoreFollows | internal/watcher/informer.go:187-263 | In every interleaving of handlers with flush steps and other clusters, the store's view of a key is what the handled events make of it |
| ClusterWatcher.CacheAgreesIff | internal/watcher/informer.go:172-289 | At every point between handlers of every such interleaving, cache and store agree on a key exactly when a handler has acted on it or the seed agreed at the start |
| ClusterWatcher.MidHandlerIff | internal/watcher/informer.go:187-193 | Between the two writes of a handler, with flush steps in between, they agree on its key exactly when the event changes nothing there, and on every other key as before |
| ClusterWatcher.CacheForgetsIff | internal/watcher/informer.go:172-289 | Two caches agree after the same events exactly when one of these acted on the key or they agreed before |
| ClusterWatcher.ClusterWatcher.SeedHashes | internal/watcher/informer.go:76-85 | Adds the persisted hashes to the cache |
| ClusterWatcher.ClusterWatcher.OnAdd | internal/watcher/informer.go:172-194 | Overwrites the cache entry without comparing and tells the store |
| ClusterWatcher.ClusterWatcher.OnUpdate | internal/watcher/informer.go:197-264 | Returns the rollout of the key from the cached hash to the new one exactly if it is allowed, cached and different, and moves cache and store together |
| ClusterWatcher.ClusterWatcher.OnDelete | internal/watcher/informer.go:267-289 | Removes the entry of the key from cache and store without asking the filter |
| ClusterWatcher.FullKeyInjective | internal/watcher/informer.go:76-85 | The cache keys of one cluster do not collide |
| Debouncer.OneFate | internal/watcher/debouncer.go:35-88 | In every interleaving each submitted event has exactly one fate: pending, taken but not sent, replaced, sent, dropped on a full queue, discarded by Stop; and nothing else has any |
| Debouncer.PendingWillBeEmitted | internal/watcher/debouncer.go:35-49 | Pending events and timers have the same keys, and a pending event has an armed timer or a callback waiting for the lock |
| Debouncer.TakesLatest | internal/watcher/debouncer.go:53-62 | An emit takes the latest event submitted under its key, even when a stale or re-armed timer started it |
| DebouncerLaws.PendingIsLastSubmit | internal/watcher/debouncer.go:35-49 | Over every run, what is pending under a key is what the last Submit of the key submitted, with its payload |
| DebouncerLaws.SubmittedExactly | internal/watcher/debouncer.go:35-39 | The events of a run are exactly those of its Submit steps, with their keys and payloads |
| DebouncerLaws.SubmitLaw | internal/watcher/debouncer.go:35-49 | A Submit replaces what is pending, with a whole window, and touches no other key |
| DebouncerLaws.DroppedIff | internal/watcher/debouncer.go:64-75 | Over every run an event is dropped exactly when its send found the queue full, and sent exactly when it found room |
| DebouncerLaws.SendLaw | internal/watcher/debouncer.go:64-75 | A send with room puts its event at the end of the queue, one without drops it |
| DebouncerLaws.QueueInOrder | internal/watcher/debouncer.go:64-69 | Over every run the queue is the end of the events sent, in the order of sending, and never longer than its capacity |
| DebouncerLaws.ReceiveLaw | internal/watcher/debouncer.go:64-69 | The reader gets the events in that order |
| Debouncer.WindowKeptIff | internal/watcher/debouncer.go:23-24 | An event waits out its window of inactivity in every run exactly when, as it is submitted, no callback of its key is already waiting and no leftover timer of its key runs out sooner |
| Debouncer.ResubmitAtExpiry | internal/watcher/debouncer.go:41-44 | A submit just as the timer fires is handed over with no quiet time at all |
| Debouncer.ReachableInv | internal/watcher/debouncer.go:15-88 | Every reachable state has the invariant: keys agree, timers are sound, every event is accounted for, the pending event is the latest |
| DebouncerModel.StepConserves | internal/watcher/debouncer.go:35-88 | One step keeps the account of every event's fate |
| DebouncerModel.StepKeepsLatest | internal/watcher/debouncer.go:39 | One step keeps: what is pending is the latest submitted under its key |
| DebouncerModel.StepKeepsWillEmit | internal/watcher/debouncer.go:41-48 | One step keeps: a pending event will be emitted |
| Debouncer.Debouncer.Submit | internal/watcher/debouncer.go:35-49 | Replaces what is pending under the key with this payload, gives the key a whole window, and changes nothing under other keys |
| Debouncer.Debouncer.TakePending | internal/watcher/debouncer.go:54-58 | The critical section of emit: one step |
| Debouncer.Debouncer.TrySend | internal/watcher/debouncer.go:64-75 | Puts the event at the end of the queue if there is room, and drops it otherwise |
| Debouncer.Debouncer.Emit | internal/watcher/debouncer.go:53-76 | Takes what is pending under the key and, with others, a Stop included, in between, puts it at the end of the queue if there is room at its send |
| Debouncer.Debouncer.Stop | internal/watcher/debouncer.go:79-88 | Cancels every timer and discards what is pending: one step |
| Debouncer.Debouncer.CancelTimers | internal/watcher/debouncer.go:83-87 | The loop over the timers empties both maps and disarms exactly the timers in the map |
| WatchlistModel.LookupIff | internal/watchlist/store.go:110-115 | After any sequence of Puts, Deletes and failures a lookup answers (app, channel) exactly when that app's stored registration lists the pair with that channel |
| WatchlistLaws.LookupOverRun | internal/watchlist/store.go:110-202 | After any run a lookup answers with an app and a channel exactly when the last acknowledged, unrejected Put of the app, with no acknowledged Delete since, had that channel and listed the pair on a known cluster; or when nothing registered or unregistered the app and it answered so at the start |
| WatchlistLaws.RegisteredOverRun | internal/watchlist/store.go:142-232 | What is registered for an app after a run, in terms of the operations |
| WatchlistLaws.PutRegisters | internal/watchlist/store.go:142-202 | An acknowledged, unrejected Put registers the app so and no other |
| WatchlistLaws.PutIsLookedUp | internal/watchlist/store.go:188-199 | Such a Put makes lookups answer with the app for exactly these pairs |
| WatchlistLaws.DeleteUnregisters | internal/watchlist/store.go:205-232 | An acknowledged Delete removes the app from registrations and lookups and nothing else |
| WatchlistLaws.DesiredIff | internal/watchlist/store.go:235-246 | A cluster is asked for exactly when some registration has it |
| Watchlist.Store.DesiredClusters | internal/watchlist/store.go:235-246 | The loop computes that union |
| WatchlistModel.OneOwner | internal/watchlist/store.go:142-175 | No pair has two owners |
| WatchlistModel.ConflictIff | internal/watchlist/store.go:157-175 | A Put is rejected exactly when another app already lists one of the pairs it would store |
| WatchlistModel.FailureChangesNothing | internal/watchlist/store.go:172-202 | A conflicting or failed operation changes neither index nor registrations |
| WatchlistModel.KeyInjective | internal/watchlist/store.go:110-115 | The index key of a slash-free cluster and any namespace determines both |
| WatchlistModel.ExecKeepsInv | internal/watchlist/store.go:142-232 | Every sequence of operations keeps index and registrations in agreement |
| WatchlistModel.PutKeepsIndex | internal/watchlist/store.go:188-199 | Replacing an app's entries keeps index and registrations in agreement |
| WatchlistModel.DeleteKeepsIndex | internal/watchlist/store.go:205-232 | So does removing them |
| WatchlistModel.IndexUnique | internal/watchlist/store.go:250-269 | Only one index agrees with given registrations |
| WatchlistModel.RestartRoundTrip | internal/watchlist/store.go:86-107 | After any operations without a lost reply, LoadAll rebuilds the same registrations, index and desired clusters from a listing in any order, for app names that sanitizing leaves unchanged |
| WatchlistModel.RestartKeepsAppsIff | internal/watchlist/store.go:86-107 | For any set of app names: all runs over them without a lost reply survive a restart, and keep resources and registrations equal, exactly when sanitizing leaves each of the names unchanged |
| WatchlistModel.CollidingNamesLose | internal/watchlist/store.go:205-232 | Witness: after Put a.b, Put a-b and Delete a.b the remaining app has a fixed name and no resource, and a restart loses it |
| WatchlistModel.MirrorKeptIff | internal/watchlist/store.go:177-195 | An operation keeps resources and registrations equal exactly unless its write was applied and reported as failed with an effect |
| WatchlistModel.MirrorKept | internal/watchlist/store.go:177-232 | Runs without such a lost reply keep them equal |
| WatchlistModel.LoadedAgrees | internal/watchlist/store.go:86-107 | Loading disjoint resources in any order gives registrations and an index that agree |
| Watchlist.Store.LoadAll | internal/watchlist/store.go:86-107 | Rebuilds the state the specification gives for the listing, in its order |
| Watchlist.Store.Lookup | internal/watchlist/store.go:110-115 | Reads the index |
| Watchlist.Store.Put | internal/watchlist/store.go:142-202 | A stored Put registers the app with the channel of the spec and exactly its known clusters with their namespaces, in memory and under its sanitized name, leaves other apps alone, and makes lookups answer with it for exactly these pairs; a conflict names exactly the pairs that other apps own; anything else changes nothing in memory |
| Watchlist.Store.SplitKnown | internal/watchlist/store.go:145-154 | Splits the clusters of a registration into those with a kubeconfig and those without |
| Watchlist.Store.FindConflicts | internal/watchlist/store.go:157-171 | Returns exactly the colliding pairs with their owners |
| Watchlist.Store.UpsertCRD | internal/watchlist/store.go:272-300 | Creates or updates the resource under the sanitized name, for each outcome |
| Watchlist.Store.Delete | internal/watchlist/store.go:205-232 | A successful Delete removes the app from the registrations and from every lookup and leaves other apps alone; a failed one changes nothing in memory |
| Watchlist.Store.AddToIndex | internal/watchlist/store.go:250-259 | Adds an entry for each listed pair and nothing else |
| Watchlist.Store.RemoveFromIndex | internal/watchlist/store.go:263-269 | Removes exactly the app's entries |
| ManagerModel.ClusterConserved | internal/watcher/manager.go:285-396 | Over any run of reconcile passes with arbitrary start failures and health verdicts, a cluster that is running or queued stays so as long as every loaded snapshot lists it |
| ManagerModel.RescanSettles | internal/watcher/manager.go:455-543 | After a rescan what runs or is queued is listed; a listed cluster has its hash recorded or is queued without one; a new or changed one runs on, or waits with, the listed configuration |
| ManagerModel.RetryLaw | internal/watcher/manager.go:337-389 | In any pass through which a due cluster stays queued, it ends running on the configuration the directory holds now, else on the one it is queued with or that the rescan took up, if the start succeeds; with neither, or if it fails, it stays queued with one more attempt |
| ManagerModel.BackoffSequence | internal/watcher/manager.go:44-56 | Ten, twenty, forty, eighty and a hundred and sixty seconds, and five minutes from then on |
| ManagerModel.SteadyLaw | internal/watcher/manager.go:285-396 | A healthy watcher whose file has not changed is left alone by a pass |
| ManagerModel.SickLaw | internal/watcher/manager.go:300-335 | An unhealthy watcher is stopped and queued for ten seconds later without a configuration |
| ManagerModel.ChangedLaw | internal/watcher/manager.go:516-541 | A changed file stops the old watcher and starts the new one with its hash, or queues it with none |
| ManagerModel.NewFileLaw | internal/watcher/manager.go:490-515 | A new file is started with its hash, or queued with none |
| ManagerModel.GoneLaw | internal/watcher/manager.go:471-480 | A file that is gone stops its watcher and has its hash and retry forgotten |
| ManagerModel.WantedLaw | internal/watcher/manager.go:400-435 | A cluster that only the watchlist asks for is started or queued for ten seconds later |
| ManagerModel.AbandonedForever | internal/watcher/manager.go:490-542 | No number of passes over the same file starts such a cluster unless the watchlist wants it |
| ManagerModel.LostIff | internal/watcher/manager.go:285-396 | Over any run a cluster ends neither running nor queued with a hash on record exactly when at some pass its file was gone while it was not running, or it began so, and since then neither the watchlist asked for it nor was its file seen with another hash |
| ManagerModel.PassLosesIff | internal/watcher/manager.go:455-543 | When one pass leaves a cluster so |
| Manager.LostFromStartupIff | internal/watcher/manager.go:147-213 | The same from startup on: it begins so exactly when startup's snapshot holds a file that its list did not |
| Manager.LostOnlyByStartup | internal/watcher/manager.go:147-213 | While every loaded snapshot lists it, a cluster is lost exactly when startup lost it and nothing brought it back |
| ManagerModel.AbandonedFromNothing | internal/watcher/manager.go:471-488 | Witness from nothing: start, sicken, lose the file |
| ManagerModel.LostOnlyByRemoval | internal/watcher/manager.go:285-396 | From an empty manager, a cluster that every loaded snapshot lists is never abandoned |
| ManagerModel.UnknownHasNoHash | internal/watcher/manager.go:455-543 | Over such runs a cluster that is neither running nor queued has nothing on record |
| ManagerModel.RescanLeaksIff | internal/watcher/manager.go:490-542 | What a rescan adds to the live watchers outside the map: one for a start of a running cluster without a recorded hash, and one for a start that times out |
| ManagerModel.RetryLeaksIff | internal/watcher/manager.go:337-388 | What a retry adds: one for a start of a running cluster or one that times out |
| ManagerModel.EnsureLeaksIff | internal/watcher/manager.go:400-435 | What a start for the watchlist adds: one if it times out |
| ManagerModel.LeakedExactly | internal/watcher/manager.go:285-396 | Over any run the live watchers outside the map grow by exactly these amounts, and nothing ever stops one |
| ManagerModel.LeaksNeverFromIff | internal/watcher/manager.go:285-396 | From any state of a cluster, over all runs in which starts go only in the given ways: none leaks exactly when nothing has leaked, no start times out and, where starts can succeed, none fails, the watchlist wants nothing and the state is tidy |
| Manager.LeaksNeverIff | internal/watcher/manager.go:147-396 | The same from startup on, for a manager that rescans a directory: startup timed out on none of the cluster's files and started at most one, did not also queue it, and its file, if listed, is in a startup snapshot that loaded; then as before |
| Manager.LeaksNeverAtAllIff | internal/watcher/manager.go:147-396 | Over all ways startup itself can go as well: its list has the cluster at most once and, if at all, its snapshot loaded with it; no start times out; where starts can succeed none fails and the watchlist wants nothing |
| Manager.LeaksNeverWithoutDirectoryIff | internal/watcher/manager.go:147-396 | Without a directory only what startup queued can leak: if its start can time out, or succeed while the cluster runs as well |
| Manager.SnapshotFailsThenLeaks | internal/watcher/manager.go:185-193 | Witness: startup starts its one file, its snapshot fails, and the first rescan starts the file again over the live watcher |
| Manager.StartupState | internal/watcher/manager.go:147-213 | What startup leaves of a cluster, in terms of its list, the outcomes of its starts and its snapshot |
| ManagerModel.StaysTidy | internal/watcher/manager.go:285-396 | From a tidy state, when all starts succeed and the watchlist wants nothing: nothing leaks, nothing is both running and queued, and all that is either has a hash on record |
| ManagerModel.RetriedThenLeaks | internal/watcher/manager.go:382-387 | Witness from nothing: a cluster started by a retry is started again over its live watcher by the next rescan |
| ManagerModel.WantedThenLeaks | internal/watcher/manager.go:421-433 | Witness from nothing: so is one started for the watchlist |
| ManagerModel.TimedOutThenThreeLive | internal/watcher/informer.go:126-136 | Witness from nothing: a start whose sync times out, its retry and the next rescan leave three live watchers of one cluster |
| ManagerModel.RunningAndQueuedIff | internal/watcher/manager.go:490-542 | A rescan leaves a cluster both running and queued exactly when it was and nothing recycles it, or when the second start of a running cluster without a hash fails |
| ManagerModel.BothNeverFromIff | internal/watcher/manager.go:285-396 | From any state, no run has a cluster running and queued at once exactly when it is not so now and starts always succeed, or never do and it does not run without a recorded hash |
| Manager.BothNeverIff | internal/watcher/manager.go:147-396 | The same from startup on: startup did not both start and queue it, and later starts always succeed, or never do and what startup started is in its snapshot |
| ManagerModel.OtherConfigIff | internal/watcher/manager.go:516-542 | A rescan leaves a cluster on another configuration than its file exactly when it was and its hash matches, or it has none and is not started |
| ManagerModel.RunsListedFromIff | internal/watcher/manager.go:344-371 | From any state: while every rescan sees the same file, a cluster always runs on what it says exactly when it runs on and waits with nothing else and no load in between can find anything else |
| Manager.RunsListedIff | internal/watcher/manager.go:147-396 | From startup on, however the starts go: exactly when every file that startup listed for it says the same and no load in between can find anything else |
| Manager.StartupEditStays | internal/watcher/manager.go:185-193 | Witness: a file edited between startup's list and its snapshot leaves the old configuration running for as long as the watcher is healthy |
| Manager.StartupRepairedIff | internal/watcher/manager.go:185-193 | The first rescan repairs such a start exactly when the snapshot did not record the hash that the rescan sees |
| ManagerModel.UndoneEditStays | internal/watcher/manager.go:344-371 | From nothing: an edit that a retry picks up and that is undone before the next rescan stays in force through any number of later passes of a healthy watcher |
| ManagerModel.RetryBackoff | internal/watcher/manager.go:46-56 | The loop computes ten seconds doubled per attempt, capped at five minutes |
| ManagerModel.Pow2Monotone | internal/watcher/manager.go:46-56 | The doubling never falls back below the cap it has passed |
| Manager.Manager.Reconcile | internal/watcher/manager.go:285-396 | Every cluster goes through the four phases, each on its own part of what the pass meets, and the rescan happens exactly when it is due |
| Manager.Manager.ReconcileLoop | internal/watcher/manager.go:254-278 | Many ticks are many passes, so a cluster known and always listed stays known |
| Manager.Manager.EnsureWatchlistClusters | internal/watcher/manager.go:400-435 | Starts or queues exactly the desired clusters that are found in the directory and neither running nor queued |
| Manager.Manager.RescanDirectory | internal/watcher/manager.go:455-543 | Acts on each cluster as the specification of a rescan says, so that afterwards every cluster is settled as RescanSettles has it; nothing when the load fails |
| Manager.Manager.StopRemovedClusters | internal/watcher/manager.go:471-480 | Stops the watchers whose file is gone, and forgets their hash and retry |
| Manager.Manager.CancelRemovedRetries | internal/watcher/manager.go:482-488 | Cancels the retries whose file is gone |
| Manager.Manager.StartNewClusters | internal/watcher/manager.go:490-542 | Handles every listed file once |
| Manager.Manager.StartNewCluster | internal/watcher/manager.go:491-541 | Starts a new cluster, refreshes a queued one, recycles a changed one |
| Manager.Manager.HealthCheck | internal/watcher/manager.go:300-335 | Stops the unhealthy watchers and queues them without a configuration, unless queued already |
| Manager.Manager.RetryPending | internal/watcher/manager.go:337-389 | Each queued cluster that is due runs afterwards, and is not queued, on what the directory holds for it, or else on what it was queued with, if there is one and the start succeeds; otherwise it stays queued with one more attempt; all others are left alone |
| Manager.Manager.RetryOne | internal/watcher/manager.go:358-388 | Starts and dequeues one cluster, or postpones it with a longer backoff |
| Manager.Manager.ReadSnapshot | internal/config/kubeconfig.go:94-124 | The hashes and configurations of a directory: for each id those of its last file |
| Manager.Manager.FindConfig | internal/watcher/manager.go:446-450 | The first file of an id |
| Manager.FirstIsLast | internal/watcher/manager.go:446-466 | A rescan and a retry read the same configuration when the ids of a directory are distinct |
| Manager.Manager.Begin | internal/watcher/manager.go:147-213 | Startup starts or queues each listed cluster in turn and then records the directory's hashes, whatever was started; it succeeds exactly when something runs or is queued; if the context ends in a pause it stops there, with no hash recorded |
| Manager.Manager.StartWatcher | internal/watcher/manager.go:217-250 | A started watcher goes over whatever is in the map; one whose sync times out stays alive outside it; an earlier failure changes nothing |
| Manager.StartupLeaksIff | internal/watcher/manager.go:151-183 | Startup leaks a live watcher of a cluster exactly when one of its starts times out or when it is started twice |
| Manager.StartedExactly | internal/watcher/manager.go:151-183 | After the startup loop exactly the given clusters run or are queued |
| Manager.StartupAbandonsIff | internal/watcher/manager.go:185-193 | A file in startup's snapshot is abandoned exactly when its cluster was not in the list that startup was given |
| OrchestratorModel.BoundedConcurrency | internal/investigation/orchestrator.go:80-157 | In every interleaving of calls, goroutine exits and shutdown: active entries are at most the tokens held, these at most the bound, and every entry belongs to an investigation of its key that has not cleaned up and was not superseded, so that its context is done only by a shutdown |
| OrchestratorModel.DrainedIff | internal/investigation/orchestrator.go:99-119 | The active map, the semaphore and the wait group are empty exactly when no call is between taking a token and its end |
| OrchestratorModel.CanDrain | internal/investigation/orchestrator.go:100-157 | From every reachable state the present goroutines can all finish, and then nothing is left over |
| OrchestratorModel.CallAdvances | internal/investigation/orchestrator.go:53-158 | No call ever waits for another: its next section is always enabled and brings it closer to its end |
| OrchestratorModel.ReleaseNeverBlocks | internal/investigation/orchestrator.go:101-102 | Giving a token back never blocks and the wait group never goes below zero |
| OrchestratorModel.ReachableInv | internal/investigation/orchestrator.go:53-158 | Every reachable state has the accounting invariant |
| OrchestratorModel.StepKeepsAccounts | internal/investigation/orchestrator.go:80-102 | One section keeps tokens and wait group equal to the goroutines that hold them |
| OrchestratorModel.StepKeepsActive | internal/investigation/orchestrator.go:63-119 | One section keeps every active entry sound |
| Orchestrator.TrackedKeptIff | internal/investigation/orchestrator.go:103-118 | A section keeps every investigation that was not superseded in the active map exactly when it is neither a cleanup that removes another's entry nor a registration over one |
| Orchestrator.OneInvestigationPerKey | internal/investigation/orchestrator.go:19-21 | Runs without those two steps have at most one investigation per deployment that was not superseded |
| Orchestrator.OnePerKeyKeptIff | internal/investigation/orchestrator.go:88-97 | A section ends one investigation per deployment exactly when it registers one while another of its deployment, not superseded, goes on |
| Orchestrator.AlwaysOneIff | internal/investigation/orchestrator.go:19-21 | A run has one investigation per deployment throughout exactly when it has no such registration |
| Orchestrator.SupersedeSparesIff | internal/investigation/orchestrator.go:63-70 | A new rollout fails to cancel a live investigation of its deployment exactly when that one is not in the map |
| Orchestrator.LateCleanupLeavesTwo | internal/investigation/orchestrator.go:103-118 | Three rollouts of one deployment leave two investigations running, neither superseded, when the first one finishes late |
| Orchestrator.StopIsFinalIff | internal/investigation/orchestrator.go:160-166 | Once Stop can return, nothing ever starts again exactly when no call is between its shutdown check and the start of its goroutine |
| Orchestrator.StopMissesOne | internal/investigation/orchestrator.go:160-166 | Witness: a call that passed its check just before the shutdown starts its investigation after Stop could return |
| Orchestrator.Orchestrator.Investigate | internal/investigation/orchestrator.go:53-158 | The whole call as its sections with others between them; rejected exactly when it sees the shutdown, dropped exactly when it finds no token |
| Orchestrator.Orchestrator.Conclude | internal/investigation/orchestrator.go:100-119 | The deferred functions in their order, with others between them; the token is there to be given back |
| Orchestrator.Orchestrator.CancelActive | internal/investigation/orchestrator.go:63-70 | Cancels and removes the entry of the key: one step |
| Orchestrator.Orchestrator.CleanUp | internal/investigation/orchestrator.go:103-119 | Removes whatever entry the key has and cancels its own context: one step |
| Orchestrator.Orchestrator.TryAcquire | internal/investigation/orchestrator.go:80-86 | Takes a token without blocking, or gives up: one step |
| Orchestrator.Orchestrator.Stop | internal/investigation/orchestrator.go:160-166 | Cancels everything and returns once the count is zero; it is final exactly under the condition above |

## Left out

- Kubernetes clients, informers, kubeconfig parsing and resource validation: a versioned store, event sequences, and replies that refuse, apply, or apply and report failure.
- RecordRollout: it is promised to be a protocol step only when the name was not used by a record deleted since, as all theorems over runs assume; every changing write gets a fresh version.
- Wall-clock behaviour: integer time that does not run backwards; context cancellation may end a poll loop or a soak but not an API call half way.
- int32 overflow of restart sums, and the time of the last sync stored with a cluster's hashes.
- SanitizedShape: letters are lowered as in ASCII and lengths are counted in characters, so names of other scripts are not covered.
- The hash of a pod template, JSON and SHA-256: a hash is any non-empty string.
- Closing the debouncer's output channel; events submitted after its Stop are ordinary steps of the model.
- CacheAgreesIff: one live watcher per cluster is assumed, which the manager does not always keep (LeaksNeverIff); the methods of the class make a handler's two writes in one call, MidHandlerIff speaks of the time between them.
- Put: the check and the update, under two separate locks in the source, are one operation here; a concurrent Put is not modelled.
- Delete: its two locked sections are one operation as well.
- RestartKeepsAppsIff: which resource names an API server would refuse is not modelled, so runs may register an app whose sanitized name is empty or ends in a hyphen.
- Manager: the phases of a pass hold one lock each and only the reconcile loop runs them, so nothing interleaves; left out are stopping the manager and what a leaked watcher goes on doing.
- Orchestrator: what an investigation does, the report and the status cache; a context is only its cancelled flag.
- MonitorRollout: reading a deployment, its newest ReplicaSet and its pods is one observation per poll.
- CheckFailureConditions: only the order of the checks and their verdicts, not the wording of the reasons beyond pod, container and waiting reason.
- Diagnostics gathering beyond the line filter: report assembly over API calls.
- Slack, Holmes, HTTP handlers, logging, tracing, health counters, NamespaceFilter, StatusCache, configuration and process wiring: presentation, or facts of one branch each.
- recordName and the listing of registrations for display: string building.
