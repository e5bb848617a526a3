# Form's durable control plane, modelled in Dafny

Form keeps its control state in SQLite, and every `BEGIN IMMEDIATE` block is one
atomic step of a protocol between workers, API callers and crashes. This project
models that state and its steps and proves what holds over every run.

| part | modules |
|---|---|
| The lease-fenced scan-job queue: tables and calls as values, the repository as a class that commits exactly those calls, invariants and theorems over all runs | `JobModel`, `JobMoves`, `JobInvariants`, `JobRuns`, `JobTheorems`, `JobStore`, `JobAnswers`, `QueueAnswers` |
| The workers that drive it: execution and commit tasks interleaved at their awaits, any number of them over one database | `WorkerModel`, `WorkerInvariants`, `WorkerSystem`, `WorkerAnswers`, `RemoteWork`, `StalledWorker` |
| Certificate generations of agent identities | `IdentityModel`, `IdentityInvariants`, `IdentityRuns`, `IdentityStore`, `IdentityAnswers` |
| Concurrent staging of certificates, and the reconciliation and undoing of Guard deployments | `Staging`, `Reconcile`, `GuardStaging`, `Compensation` |
| Telemetry chunking and its envelopes | `Packing`, `Chunks`, `ChunkTheorems`, `Identifiers`, `Envelopes`, `EnvelopeTheorems` |
| The materialised MDVM set, its synchronisation runs and its hand-over batches | `MdvmModel`, `MdvmFold`, `MdvmRuns`, `MdvmWitness`, `MdvmAnswers`, `MdvmStore`, `MdvmBatches` |
| Migration of legacy control state | `Migration` |

The modules whose name ends in `Answers` say what each operation gives its caller
and leaves behind, in terms of columns, times and conditions and without the
functions that define the operation.

`dafny verify dfyconfig.toml` checks the whole project.

Conventions and assumptions:

- Times are integers in microseconds, passed to each call. The clock of a run may
  be arbitrary unless a theorem takes a `clock` (target exclusivity, the global
  cap, acknowledged results) or the run itself carries one (MDVM fetches).
- Ids, tokens and keys are integers compared for equality (job ids also for
  order, as the queries do). The token hash and the key hash are injective, so a
  token stands for its hash.
- Theorems about a job's history and about dead claims assume that a job id is
  not created again after its head was evicted (`FreshIds`).
- What SQL leaves open (which row of equal rank, in which order rows are swept)
  is part of a step's label, and `Enabled` says which labels the queries admit.
- Remote hosts, the spool, the Analyzer and the certificate authority answer
  arbitrarily. Code between two awaits is one step.
- A validity interval is half open, `not_before <= now < not_after`, as the code
  tests it; section 4.1.2.5 of RFC 5280 includes the last instant.
- MDVM: the upstream log is a set of changes, each visible from some instant on.
  Upstream shows a change no later than the configured overlap after its event
  time, and never both fixes and keeps one record at one time.
  `MdvmRuns.LateChangeIsMissed` shows why the first is needed.

Where a property does not hold as one might first state it, an input shows it
and a theorem says when it does hold:

- Remote work can start more than `max_attempts` times after a manual retry: a
  worker that stalled before the retry still starts
  (`StalledWorker.StalledWorkerStartsAfterRetry`). Each such worker adds one
  start and nothing else does (`RemoteWork.StartsBetweenRetries`).
- Reconciliation can answer "nothing" although an attempt is staged, when an
  owner that lost its lease stages it after its key was read
  (`Reconcile.StaleOwnerCanUnsettle`). Only a generation granted in that window
  leaves an attempt unsettled (`Reconcile.NothingMeansSettled`), and by the time
  the worker's own staging is granted only one that was activated does
  (`GuardStaging.StagesOverSettled`).
- Chunks are the fewest among splits that keep the sending order
  (`ChunkTheorems.FewestChunks`). Splits that cut each stream on its own can be
  smaller: `EnvelopeTheorems.IndependentCutsCanBeFewer` gives the report and
  `ChunkTheorems.WithinStreamsOfIndependentCuts` bounds the gap.
- The final size check of a chunk can fire for a packable report: when its runs
  understate their findings (`EnvelopeTheorems.UnderstatedCountsCanFire`) or its
  id has at most 256 characters but more than 256 bytes
  (`EnvelopeTheorems.WideIdentifiersCanFire`).
  `EnvelopeTheorems.SizeCheckFiresIff` says exactly which reports that fit one
  envelope are affected, `EnvelopeTheorems.DividedSizeCheckFiresIff` says it of
  every packable report under a given limit, and `EnvelopeTheorems.SplitSucceeds`
  gives a simple condition under which none of this happens.
- A baseline does not hand over a device whose last active record is gone, and
  later deltas do not either (`MdvmWitness.EmptiedDeviceIsNeverHandedOver`);
  `MdvmRuns.BaselineHandsOverIff` says which devices it does hand over. Deltas
  hand over every changed device (`MdvmRuns.HandOverCoversChanges`).
- A generation's deployment bundle is not always returned: a call that dies after
  its commit loses it (`Staging.MaterialCanBeLost`). It is never returned twice,
  and that death is the only way to lose it (`Staging.OneTimeMaterial`).
- Columns and payload of a head agree after a completion if and only if the
  worker kept target and creation time (`JobInvariants.CompletionAgreesIff`);
  the workers always do (`WorkerSystem.TraceDisciplined`).

## Model

| member | source | states |
|---|---|---|
| `JobStore.ScanJobRepository.constructor` | form/src/kcatta_form/job_store.py:125-163 | a new repository holds no heads, no direct leases and no events |
| `JobStore.ScanJobRepository.Store` | form/src/kcatta_form/job_store.py:309-334 | writing a head appends exactly one event and drops only the oldest events beyond the limit |
| `JobStore.ScanJobRepository.MakeRoom` | form/src/kcatta_form/job_store.py:336-360 | removes the oldest terminal rows down to the low-water mark, never a non-terminal one, and reports failure exactly when room is wanted and none can be freed |
| `JobStore.ScanJobRepository.Create` | form/src/kcatta_form/job_store.py:362-429 | creates, replays an identical keyed request, or refuses, and changes the tables only when it creates |
| `JobStore.ScanJobRepository.FailExhaustedRows` | form/src/kcatta_form/job_store.py:554-592 | fails exactly the due waiting rows without attempts left, each once |
| `JobStore.ScanJobRepository.SelectCandidate` | form/src/kcatta_form/job_store.py:636-682 | returns the first eligible row in the ORDER BY sense, or nothing when no row is eligible |
| `JobStore.ScanJobRepository.ClaimNext` | form/src/kcatta_form/job_store.py:594-738 | the new tables are the swept ones with the first candidate leased under the next epoch, or only swept when the cap is reached or nothing is eligible |
| `JobStore.ScanJobRepository.AcquireTargetOperation` | form/src/kcatta_form/job_store.py:740-811 | granted exactly when no live job lease and no live direct lease is on the target; every expired active row of the target is then fenced |
| `JobStore.ScanJobRepository.ReleaseTargetOperation` | form/src/kcatta_form/job_store.py:813-829 | removes the lease of exactly this owner and token, and reports a lost lease otherwise |
| `JobStore.ScanJobRepository.RenewTargetOperation` | form/src/kcatta_form/job_store.py:831-866 | extends only the unexpired lease of this owner and token |
| `JobStore.ScanJobRepository.LeasedRow` | form/src/kcatta_form/job_store.py:868-903 | passes exactly the claims that satisfy `Leased` |
| `JobStore.ScanJobRepository.Renew` | form/src/kcatta_form/job_store.py:905-935 | granted exactly to a leased claim, and returns the payload the head holds now |
| `JobStore.ScanJobRepository.Complete` | form/src/kcatta_form/job_store.py:937-993 | granted exactly to a leased claim with an admissible outcome; clears the lease and stores the next revision |
| `JobStore.ScanJobRepository.RequestCancel` | form/src/kcatta_form/job_store.py:995-1040 | waiting jobs end cancelled, running ones become cancelling, all others are left as they are |
| `JobStore.ScanJobRepository.ManualRetry` | form/src/kcatta_form/job_store.py:1042-1085 | only failed and cancelled jobs go back to pending, with no attempts used and no lease |
| `JobStore.ScanJobRepository.UpdateDerivedResult` | form/src/kcatta_form/job_store.py:489-552 | changes only the derived part of a succeeded job whose derivation is still open |
| `JobAnswers.CompletionIsStored` | form/src/kcatta_form/job_store.py:937-993 | granted exactly to the owner of a live lease with an admissible outcome of the claimed job; the head and the newest event then hold the given job unchanged but for an open due time of a retrying one, and the lease is gone |
| `JobAnswers.RenewalIsStored` | form/src/kcatta_form/job_store.py:905-935 | a renewal moves expiry and heartbeat of the owned row and nothing else |
| `JobAnswers.HistoryIsKept` | form/src/kcatta_form/job_store.py:309-334 | each write adds one event and gives up only what is over the limit, oldest first |
| `JobAnswers.CancellationIsStored` | form/src/kcatta_form/job_store.py:995-1040 | the payload each state is given: a queued job ends cancelled with time and reason, a running one becomes cancelling and keeps its lease, others stay |
| `JobAnswers.RetryIsStored` | form/src/kcatta_form/job_store.py:1042-1085 | a failed or cancelled job is pending, due now, with no attempt used and no trace of its outcome |
| `JobAnswers.ObservationIsStored` | form/src/kcatta_form/job_store.py:502-552 | every derived field and the detail of an open result, clamped at zero, and nothing else of the job |
| `JobAnswers.DirectGrant` | form/src/kcatta_form/job_store.py:740-811 | granted exactly on a target nobody holds; the lease row, and which job rows move to the next epoch without a lease |
| `JobAnswers.DirectEnd` | form/src/kcatta_form/job_store.py:813-866 | release and renewal act on the lease of this owner and token alone |
| `QueueAnswers.ClaimIsFirst` | form/src/kcatta_form/job_store.py:605-682 | a claim is issued exactly when fewer leases are live than the cap and some job is eligible, and for the one ahead of all others: cancelling, abandoned, then by due time, creation and id |
| `QueueAnswers.ClaimIsStored` | form/src/kcatta_form/job_store.py:684-738 | the payload, attempt, lease columns and event of the claimed row, and the claim handed out |
| `QueueAnswers.SpentAreFailed` | form/src/kcatta_form/job_store.py:554-592 | exactly the due queued jobs without attempts left are failed with time and reason, all other rows stay |
| `QueueAnswers.NewClaimPasses` | form/src/kcatta_form/job_store.py:868-903 | a claim just issued passes the lease gate until it expires |
| `QueueAnswers.CreationGoesThrough` | form/src/kcatta_form/job_store.py:336-429 | created exactly when key, id and first event are unused and there is room or an ended job to give up |
| `QueueAnswers.OldestMakeRoom` | form/src/kcatta_form/job_store.py:336-360 | with room nobody leaves; otherwise the longest-ended jobs leave, down to a tenth below the limit |
| `QueueAnswers.CreationIsStored` | form/src/kcatta_form/job_store.py:394-428 | the new row holds the given job in payload and columns, unleased, with its first event |
| `JobMoves.SweepAt` | form/src/kcatta_form/job_store.py:554-592 | sweeping fails the listed rows once each and touches no other row or table |
| `JobMoves.Classify` | form/src/kcatta_form/job_store.py:362-1085 | every call moves a surviving row in one of the listed ways, removes only terminal rows and adds a row only by a granted creation |
| `JobInvariants.LeasesKept` | form/src/kcatta_form/job_store.py:684-737 | lease columns are set together and only on running or cancelling rows, after any call with any arguments |
| `JobInvariants.HeadsOkKept` | form/src/kcatta_form/job_store.py:968-992 | query columns agree with the payload and the attempt stays within one of the maximum, after every call of a disciplined caller |
| `JobInvariants.CompletionAgreesIff` | form/src/kcatta_form/job_store.py:968-991 | a granted completion keeps columns and payload in agreement if and only if it kept the target and the creation time |
| `JobInvariants.CreateCapacity` | form/src/kcatta_form/job_store.py:336-360 | a granted creation never lets the head count or the history pass its limit |
| `JobInvariants.CapacityKept` | form/src/kcatta_form/job_store.py:309-360 | every call keeps both limits |
| `JobInvariants.KeysKept` | form/src/kcatta_form/job_store.py:380-428 | no two heads ever hold one idempotency key |
| `JobInvariants.HistoryOfSuffix` | form/src/kcatta_form/job_store.py:322-334 | trimming the event table leaves each job a suffix of its history |
| `JobInvariants.PutKeepsHistory` | form/src/kcatta_form/job_store.py:309-334 | storing the next revision of one head keeps every job’s history leading up to its head |
| `JobInvariants.HistoryKept` | form/src/kcatta_form/job_store.py:309-334 | every call keeps each history consecutive, ending at the head’s revision with the head’s payload |
| `JobRuns.TablesAlwaysOk` | form/src/kcatta_form/job_store.py:394-428 | in every state of every disciplined run the columns agree, the limits hold and keys are unique |
| `JobRuns.LeasesAlwaysOk` | form/src/kcatta_form/job_store.py:868-903 | in every state of every run only running and cancelling heads carry a lease token |
| `JobRuns.HistoryAlwaysLeadsToHead` | form/src/kcatta_form/job_store.py:309-334 | in every run that never reuses an id, each job’s retained events are consecutive revisions ending at its head, the newest equal to its payload |
| `JobRuns.EndedIsDead` | form/src/kcatta_form/job_store.py:705-734 | a newer claim, a completion, a retry or a fence ends the generation of every earlier claim |
| `JobRuns.DeadForEver` | form/src/kcatta_form/job_store.py:868-903 | an ended generation stays ended through every later call |
| `JobRuns.StaleOwnerNeverPasses` | form/src/kcatta_form/job_store.py:868-903 | once superseded, completed, retried or fenced, a claim never passes the lease gate again, whatever clock reading it presents |
| `JobRuns.OnlyNewestClaimPasses` | form/src/kcatta_form/job_store.py:705-734 | epochs issued for a job strictly increase, and of all claims ever issued only the newest can renew or complete, under arbitrary clocks |
| `JobRuns.DirectOperationFences` | form/src/kcatta_form/job_store.py:762-811 | after a direct operation is granted every earlier claim on its target is dead for ever, even after release and with a clock that runs backwards |
| `JobRuns.TargetFixed` | form/src/kcatta_form/job_store.py:708-725 | a job keeps its target as long as it has a head, whatever payload a completion stores |
| `JobRuns.IssuedHolds` | form/src/kcatta_form/job_store.py:684-738 | an issued claim holds its row’s lease, was the first candidate, and found fewer live leases than the cap |
| `JobTheorems.ExecutionsUseAttempts` | form/src/kcatta_form/job_store.py:684-700 | every claim that may execute uses up an attempt, over any stretch of a run without a manual retry |
| `JobTheorems.BoundedExecutions` | form/src/kcatta_form/job_store.py:684-700 | between manual retries a job is handed out for execution at most `maxAttempts` times and its attempt stays within one of the maximum |
| `JobTheorems.GuardCancelStep` | form/src/kcatta_form/job_store.py:953-967 | one call moves a cancelling Guard only to cancelled or failed, and never evicts it |
| `JobTheorems.CancelledGuardNeverSucceeds` | form/src/kcatta_form/job_store.py:1004-1019 | over every run without a manual retry a Guard once cancelling never succeeds, runs or retries |
| `JobTheorems.ExclusiveKept` | form/src/kcatta_form/job_store.py:656-667 | every call at a later or equal time keeps targets exclusive |
| `JobTheorems.OneHolderPerTarget` | form/src/kcatta_form/job_store.py:594-811 | with a non-decreasing clock a target has at most one unexpired holder at every instant, job leases and direct lease counted together |
| `JobTheorems.GlobalCap` | form/src/kcatta_form/job_store.py:611-622 | when all claimers use one cap, live job leases never exceed it |
| `WorkerInvariants.ExecutionKept` | form/src/kcatta_form/scan_worker.py:886-1025 | every step of the execution keeps its invariant: one remote start at most, none for a cancelling or out-of-budget claim, and the lease side untouched |
| `WorkerInvariants.DecideKept` | form/src/kcatta_form/scan_worker.py:462-546 | the chosen outcome keeps the leased work’s identity and is cancelled for a Guard only when its side effect is undone |
| `WorkerAnswers.DecisionAnswer` | form/src/kcatta_form/scan_worker.py:482-546 | which state, result, error and times are committed: an acknowledged result succeeds, a cancelled job is given up, and a failure is retried later if and only if it may be and the attempt is below the maximum, final now if not |
| `WorkerAnswers.RaceAnswer` | form/src/kcatta_form/scan_worker.py:598-637 | after a refused completion only a cancelling job that still renews is cancelled, once a Guard’s side effect is undone |
| `WorkerAnswers.FinalRenewAnswer` | form/src/kcatta_form/scan_worker.py:437-480 | a granted last renewal leads to the decision, or to cleaning up first; any other reply ends the worker |
| `WorkerAnswers.HeartbeatAnswer` | form/src/kcatta_form/scan_worker.py:565-596 | a heartbeat takes over the claim, notices cancellation, and gives the lease up when refused or past its end |
| `WorkerAnswers.ReturnAnswer` | form/src/kcatta_form/scan_worker.py:418-480 | when the execution or the clean-up is over, who goes on and who stops |
| `WorkerAnswers.HostExecution` | form/src/kcatta_form/scan_worker.py:886-1025 | an undisturbed host or trace execution collects once, spools, forwards and ends with what was acknowledged; a spooled one is not collected again |
| `WorkerAnswers.GuardExecution` | form/src/kcatta_form/scan_worker.py:1096-1222 | an undisturbed Guard execution reconciles, stages, deploys once, proves, spools and ends with its result |
| `WorkerAnswers.FailedExecution` | form/src/kcatta_form/scan_worker.py:1148-1198 | failures end with their own fault, or ask for reconciliation when a deployment may have happened |
| `WorkerAnswers.CancelledBeforehand` | form/src/kcatta_form/scan_worker.py:889-906 | a cancellation seen before the work stops it, or sends a Guard to find out what it deployed |
| `WorkerAnswers.CancelledGuard` | form/src/kcatta_form/scan_worker.py:914-940 | a proven deployment is undone, none is nothing to undo, an unproven one is left for reconciliation |
| `WorkerAnswers.CancelledAfterwards` | form/src/kcatta_form/scan_worker.py:961-979 | before the hand-off a recorded Guard deployment is undone and other work stops; a Guard that only timed out completes |
| `WorkerAnswers.ReconciliationOnly` | form/src/kcatta_form/scan_worker.py:945-958 | past its attempts a claim collects and stages nothing, and only joins what a Guard deployed |
| `WorkerAnswers.UnsavedGuard` | form/src/kcatta_form/scan_worker.py:1256-1270 | a Guard that cannot be spooled is undone on its last attempt |
| `WorkerAnswers.DecisionIsStored` | form/src/kcatta_form/scan_worker.py:493-553 | an undisturbed worker’s decision is the head the queue then holds |
| `WorkerInvariants.ResumeKept` | form/src/kcatta_form/scan_worker.py:430-617 | every reply of the repository keeps the invariant, on the normal and on the race path |
| `WorkerInvariants.WorkerKept` | form/src/kcatta_form/scan_worker.py:406-637 | every step of a worker, including crash and signal, keeps its invariant whatever the database holds |
| `WorkerInvariants.WorkerDisciplined` | form/src/kcatta_form/scan_worker.py:462-553 | a worker’s completions always describe the work it leased |
| `WorkerInvariants.RefusedIsLost` | form/src/kcatta_form/scan_worker.py:598-617 | with a forward clock the lease gate refuses a claim only for good |
| `WorkerSystem.FleetAlwaysOk` | form/src/kcatta_form/scan_worker.py:336-361 | in every interleaving of workers and callers each worker keeps its invariant and its claim’s place in the table |
| `WorkerSystem.TraceDisciplined` | form/src/kcatta_form/scan_worker.py:462-553 | every trace satisfies the discipline that the table invariants ask of callers |
| `WorkerSystem.CancelledGuardIsCompensated` | form/src/kcatta_form/scan_worker.py:437-553 | no worker ever commits cancelled for a Guard whose side effect is recorded as committed and not compensated |
| `WorkerSystem.ReconciliationCommitsNothing` | form/src/kcatta_form/scan_worker.py:423-435 | an execution that needs reconciliation commits nothing, so its lease expires and the job is claimed again |
| `WorkerSystem.AcknowledgedResultIsNotOverwritten` | form/src/kcatta_form/scan_worker.py:440-553 | once a host or trace execution holds an acknowledgement its worker commits that success or nothing, wherever a cancellation lands |
| `WorkerSystem.CommitIsStored` | form/src/kcatta_form/scan_worker.py:547-553 | in every trace, when a worker’s commit goes through the job’s head is what it committed |
| `WorkerSystem.AcknowledgedResultIsStored` | form/src/kcatta_form/scan_worker.py:499-509 | at that step the head of an acknowledged job is succeeded with exactly the acknowledged result |
| `WorkerSystem.StartsAreExecutions` | form/src/kcatta_form/scan_worker.py:942-958 | remote starts are at most the claims that may execute |
| `WorkerSystem.BoundedRemoteWork` | form/src/kcatta_form/scan_worker.py:336-361 | the claims issued between manual retries carry at most `maxAttempts` remote starts through any crashes and re-claims |
| `RemoteWork.WorkerStart` | form/src/kcatta_form/scan_worker.py:942-958 | only a worker that has not reached its start, is not cancelling and is within its attempts can start, and one that cannot never can again |
| `RemoteWork.StartersCount` | form/src/kcatta_form/scan_worker.py:942-958 | the steps that start remote work for a job are as many as the workers that start in between |
| `RemoteWork.StartsBetweenRetries` | form/src/kcatta_form/scan_worker.py:336-361 | between manual retries remote work starts at most `maxAttempts` times, plus once for each worker of an earlier claim that had not reached its start |
| `StalledWorker.StalledWorkerStartsAfterRetry` | form/src/kcatta_form/scan_worker.py:951-958 | the addition is real: a trace in which a worker that stalled before the retry makes a second start where one attempt is allowed |
| `Compensation.Compensate` | form/src/kcatta_form/scan_worker.py:639-692 | a Guard counts as compensated exactly when its manifest and generation are proven, that generation is revoked and the remote Guard is confirmed stopped; no other certificate is touched and a failure leaves the flags for another try |
| `Compensation.CompensationIsPermanent` | form/src/kcatta_form/scan_worker.py:649-664 | a compensated generation is never accepted again and no other deployment is disabled |
| `IdentityInvariants.BindingsKept` | form/src/kcatta_form/agent_identity_store.py:372-416 | targets, hosts and agents stay in one-to-one correspondence |
| `IdentityInvariants.GenerationsKept` | form/src/kcatta_form/agent_identity_store.py:543-623 | the generations of each identity stay exactly `1..n` |
| `IdentityInvariants.CertsKept` | form/src/kcatta_form/agent_identity_store.py:645-701 | staged is always the newest, overlaps are bounded by the hour and by expiry, and a revoked identity has only revoked certificates |
| `IdentityInvariants.OrderKept` | form/src/kcatta_form/agent_identity_store.py:645-701 | nothing newer than the active certificate was ever activated, and no retired one is newer than it |
| `IdentityInvariants.UniqueKept` | form/src/kcatta_form/agent_identity_store.py:585-609 | serials, fingerprints and the keys of one agent stay unique |
| `IdentityInvariants.OverlapKept` | form/src/kcatta_form/agent_identity_store.py:668-684 | only the certificate just overtaken by the latest activation may still overlap it |
| `IdentityInvariants.RegistryKept` | form/src/kcatta_form/agent_identity_store.py:347-849 | every call keeps all registry invariants |
| `IdentityRuns.GenerationOrder` | form/src/kcatta_form/agent_identity_store.py:543-701 | over every run generations are exactly `1..n` with retired < active < staged = n |
| `IdentityRuns.GenerationNeverReused` | form/src/kcatta_form/agent_identity_store.py:543-623 | a generation once staged keeps its serial, fingerprint and validity for ever, so no number is used twice |
| `IdentityRuns.AcceptedRetired` | form/src/kcatta_form/agent_identity_store.py:899-912 | a retired certificate accepted after the latest activation is the one that activation overtook |
| `IdentityRuns.RotationWindow` | form/src/kcatta_form/agent_identity_store.py:645-701 | from the latest activation on `verify` accepts at most two certificates of an identity: the one activated last and its immediate predecessor |
| `IdentityRuns.RetiredExpires` | form/src/kcatta_form/agent_identity_store.py:906-908 | no retired certificate is accepted an hour after its retirement or after its own expiry |
| `IdentityRuns.RevocationIsPermanent` | form/src/kcatta_form/agent_identity_store.py:760-807 | whoever presents a revoked certificate’s fingerprint or serial is never accepted again, at any clock reading |
| `IdentityRuns.RevokedIdentityIsPermanent` | form/src/kcatta_form/agent_identity_store.py:760-807 | no certificate of a revoked identity is ever accepted again |
| `IdentityRuns.BindingForEver` | form/src/kcatta_form/agent_identity_store.py:372-416 | target, host and scopes of an identity never change, and revocation is never undone |
| `IdentityRuns.AcceptedBinding` | form/src/kcatta_form/agent_identity_store.py:883-920 | an accepted certificate resolves to the target, host and scopes given when its identity was created, shared with no other identity |
| `IdentityRuns.KeyResolvesUntilReleased` | form/src/kcatta_form/agent_identity_store.py:477-498 | a key names one generation, the same one until that generation is aborted or the agent’s certificates are revoked |
| `IdentityStore.AgentIdentityRepository.GetOrCreate` | form/src/kcatta_form/agent_identity_store.py:347-416 | returns the binding of a target or creates it once; refuses any other host, scopes or agent for it |
| `IdentityStore.AgentIdentityRepository.Stage` | form/src/kcatta_form/agent_identity_store.py:500-623 | stages exactly the next generation with fresh material when none is staged, replays a known key, and refuses otherwise |
| `IdentityStore.AgentIdentityRepository.Activate` | form/src/kcatta_form/agent_identity_store.py:625-701 | closes older overlaps, retires the active certificate with a bounded overlap and activates the staged one, or changes nothing |
| `IdentityAnswers.ActivationAnswer` | form/src/kcatta_form/agent_identity_store.py:644-701 | granted exactly to an unexpired staged generation of an identity in use with an overlap within the hour; what it writes into each row |
| `IdentityAnswers.OverlapIsGranted` | form/src/kcatta_form/agent_identity_store.py:676-684 | until the agent is activated or revoked again, the predecessor is accepted exactly while it is valid and the overlap lasts, and the activated one exactly while it is valid |
| `IdentityAnswers.ActivatedIsAccepted` | form/src/kcatta_form/agent_identity_store.py:899-912 | so is a first activation without predecessor |
| `IdentityAnswers.StagingAnswer` | form/src/kcatta_form/agent_identity_store.py:543-623 | granted exactly to the next generation with new key and material while none is staged; accepted from staged peers only, while valid |
| `IdentityAnswers.BindingAnswer` | form/src/kcatta_form/agent_identity_store.py:372-416 | a binding is created exactly when target, host and agent are all new |
| `IdentityAnswers.RevocationAnswer` | form/src/kcatta_form/agent_identity_store.py:703-849 | which rows abort and the three revocations revoke, and which of them give up their key |
| `IdentityAnswers.PresentedAnswer` | form/src/kcatta_form/agent_identity_store.py:875-898 | a certificate is looked up by fingerprint, by serial, or by both together |
| `IdentityStore.AgentIdentityRepository.AbortStaged` | form/src/kcatta_form/agent_identity_store.py:703-744 | revokes a staged generation and releases its key |
| `IdentityStore.AgentIdentityRepository.Revoke` | form/src/kcatta_form/agent_identity_store.py:746-807 | revokes one generation, or the identity with all its certificates |
| `IdentityStore.AgentIdentityRepository.RevokeCertificates` | form/src/kcatta_form/agent_identity_store.py:809-849 | revokes all certificates of an agent, releases their keys and leaves the identity |
| `IdentityStore.AgentIdentityRepository.Verify` | form/src/kcatta_form/agent_identity_store.py:851-922 | answers the one named certificate if it is acceptable now, nothing if it is not, and an error when nothing is presented |
| `Staging.NewGenerations` | form/src/kcatta_form/agent_pki.py:665-736 | the only step that adds a generation leaves its material with the call that made it |
| `Staging.BundleOrigin` | form/src/kcatta_form/agent_pki.py:665-736 | a call that has made a generation made it before the step, or in it |
| `Staging.OneTimeMaterial` | form/src/kcatta_form/agent_pki.py:646-736 | however calls interleave and die, each generation was staged by exactly one call, and its bundle is returned by that call alone unless it died before returning or is still about to |
| `Staging.MaterialCanBeLost` | form/src/kcatta_form/agent_pki.py:692-720 | a call that dies between its commit and its return leaves a generation whose bundle nobody has |
| `Staging.EqualKeysOneGeneration` | form/src/kcatta_form/agent_pki.py:672-736 | two calls with one key answer with one generation unless the key was released in between |
| `Staging.UndisturbedCall` | form/src/kcatta_form/agent_pki.py:665-720 | an undisturbed call with a new key stages the next generation with the issued material and returns it |
| `Staging.ReplayedCall` | form/src/kcatta_form/agent_pki.py:672-684 | a later call with that key is answered with the same generation and no material |
| `Reconcile.SettledStays` | form/src/kcatta_form/agent_identity_store.py:543-744 | a settled attempt is unsettled by a granted staging under its key and by no other call |
| `Reconcile.ProgressAlwaysOk` | form/src/kcatta_form/scan_worker.py:726-830 | through every interleaving each attempt whose key was read is in hand as a candidate, or only generations granted after the read can leave it unsettled |
| `Reconcile.NothingMeansSettled` | form/src/kcatta_form/scan_worker.py:726-830 | when nothing was found and nothing is unresolved, an earlier attempt is unsettled exactly when a generation granted to its key after the read is still staged or active |
| `Reconcile.LateIsGranted` | form/src/kcatta_form/scan_worker.py:735-742 | such a generation comes from a staging that was granted to the target’s agent, for an attempt of this job, after its key was read |
| `Reconcile.FreshGenerationOverSettled` | form/src/kcatta_form/agent_identity_store.py:543-623 | when a fresh generation is granted, an earlier attempt is unsettled only by such a generation that is active by now |
| `GuardStaging.OnlyNothingStages` | form/src/kcatta_form/scan_worker.py:1111-1147 | an execution stages a generation only from a reconciliation that found nothing and left nothing unresolved, within its attempts |
| `GuardStaging.StagesOverSettled` | form/src/kcatta_form/scan_worker.py:1107-1147 | when the worker’s staging is granted every earlier attempt of its job is settled, but for a generation granted after the read and active by now |
| `Reconcile.StaleOwnerCanUnsettle` | form/src/kcatta_form/scan_worker.py:734-748 | the exception is real: an owner that lost its lease stages an attempt after its key was read |
| `Reconcile.FoundIsProven` | form/src/kcatta_form/scan_worker.py:793-830 | a running Guard is joined to the job only when the manifest names one of its generations and the live process is the recorded one |
| `Reconcile.ReadAnswer` | form/src/kcatta_form/scan_worker.py:735-748 | staged and active certificates are considered, revoked ones when allowed, and the probe follows when there is any |
| `Reconcile.NoManifestAnswer` | form/src/kcatta_form/scan_worker.py:761-791 | without a manifest a live Guard is unresolved and a dead one has exactly its staged generations aborted |
| `Reconcile.ManifestAnswer` | form/src/kcatta_form/scan_worker.py:793-830 | found exactly when a candidate has the manifest’s generation and fingerprint prefix and the live process is the recorded one |
| `Packing.StaysAhead` | form/src/kcatta_form/telemetry_chunks.py:104-125 | a greedy packing of the rest never needs more chunks than any other split from the same point |
| `Packing.GreedyIsMinimal` | form/src/kcatta_form/telemetry_chunks.py:104-125 | greedy packing uses the fewest chunks of any contiguous split, for every notion of fitting that segments inherit |
| `Packing.GreedyIsUnique` | form/src/kcatta_form/telemetry_chunks.py:104-125 | there is only one greedy packing of the rows |
| `Chunks.FittingIsHereditary` | form/src/kcatta_form/telemetry_chunks.py:104-125 | a segment of rows that fits the count and byte budgets fits them too |
| `Chunks.ExtendFits` | form/src/kcatta_form/telemetry_chunks.py:106-121 | the running byte count and the per-stream count decide exactly whether one more row fits |
| `Chunks.RowStep` | form/src/kcatta_form/telemetry_chunks.py:292-322 | taking one row keeps the packer lossless, within limits and greedy |
| `Chunks.TakeRow` | form/src/kcatta_form/telemetry_chunks.py:106-122 | takes one row with a flush exactly when it would exceed a budget, and refuses exactly the rows that fit no envelope |
| `Chunks.AddStream` | form/src/kcatta_form/telemetry_chunks.py:104-125 | adds one stream’s rows, and fails only when a single row cannot fit |
| `Chunks.Pack` | form/src/kcatta_form/telemetry_chunks.py:80-128 | lossless in order, every chunk within 4096 rows per stream and the byte limit, greedy, and refused exactly when the limit is not positive, the empty envelope is too large or one row cannot fit |
| `ChunkTheorems.FewestChunks` | form/src/kcatta_form/telemetry_chunks.py:279-326 | no contiguous split in sending order within the limits has fewer chunks, for two and three streams alike |
| `ChunkTheorems.ChunksAreBounded` | form/src/kcatta_form/telemetry_chunks.py:104-125 | every chunk has at most 4096 rows of each stream, and the empty envelope with its encoded arrays, rows and commas, is within the limit |
| `ChunkTheorems.WithinStreamsOfIndependentCuts` | form/src/kcatta_form/telemetry_chunks.py:279-326 | against splits that cut each stream on its own the packing is within a factor of the nonempty streams, and optimal with one |
| `ChunkTheorems.PackingIsUnique` | form/src/kcatta_form/telemetry_chunks.py:91-128 | the chunks are determined by the streams and the budget alone |
| `ChunkTheorems.OneChunk` | form/src/kcatta_form/telemetry_chunks.py:91-128 | rows that fit one envelope are sent in one |
| `EnvelopeTheorems.IndependentCutsCanBeFewer` | form/src/kcatta_form/telemetry_chunks.py:91-128 | a report that is answered with three envelopes while cutting the streams independently needs two |
| `Identifiers.BoundedCorrelationId` | form/src/kcatta_form/telemetry_chunks.py:33-39 | a short id unchanged, a long one cut to exactly 256 characters: a start of it, the label and its digest |
| `Identifiers.CutIdsApart` | form/src/kcatta_form/telemetry_chunks.py:33-54 | long ids with different digests stay different after cutting, and so do their lineage roots |
| `Identifiers.LineageRoot` | form/src/kcatta_form/telemetry_chunks.py:46-54 | a short id unchanged, a long one cut to 216 characters ending in the label and its digest, which leaves room for the suffix |
| `Identifiers.SiblingsDistinct` | form/src/kcatta_form/telemetry_chunks.py:46-61 | sibling ids of one report are pairwise distinct and at most 256 characters for any total below 10^14 |
| `Identifiers.SiblingSays` | form/src/kcatta_form/telemetry_chunks.py:57-61 | a sibling id is the root, the word chunk, its own number and then the total, both readable back |
| `Identifiers.MatchesSay` | form/src/kcatta_form/telemetry_chunks.py:42-43 | the same for the children of one trace event |
| `Envelopes.Build` | form/src/kcatta_form/telemetry_chunks.py:130-171 | the envelopes of the chunks in order, or the first chunk whose id or size is in trouble |
| `Envelopes.Split` | form/src/kcatta_form/telemetry_chunks.py:72-171 | each kind of answer under exactly one condition: refused when unpackable, stopped by the first chunk in trouble, otherwise the packed chunks with their ids and recounted findings |
| `EnvelopeTheorems.AnswerIsDetermined` | form/src/kcatta_form/telemetry_chunks.py:72-171 | the answer is a function of the report and the limit |
| `EnvelopeTheorems.SplitSucceeds` | form/src/kcatta_form/telemetry_chunks.py:267-348 | every packable report is split when its ids encode within their reserve and its runs do not understate their findings |
| `EnvelopeTheorems.SmallTotalsKeepIdBudget` | form/src/kcatta_form/telemetry_chunks.py:57-61 | the id budget is never exceeded below 10^14 chunks |
| `EnvelopeTheorems.WholeAnswer` | form/src/kcatta_form/telemetry_chunks.py:91-171 | a report that fits one envelope is answered with it, or with the size failure exactly when its own encoding with corrected counts is over the limit |
| `EnvelopeTheorems.SizeCheckNeverFires` | form/src/kcatta_form/telemetry_chunks.py:267-348 | the final size check passes when the id fits its 256-byte reserve and recounted findings are no wider |
| `EnvelopeTheorems.SizeCheckFiresIff` | form/src/kcatta_form/telemetry_chunks.py:80-171 | a report can pass packing whole and fail the size check under some limit if and only if its id and corrected counts encode longer than the 256 reserved bytes and its stated counts |
| `EnvelopeTheorems.DividedSizeCheckFiresIff` | form/src/kcatta_form/telemetry_chunks.py:91-171 | any packable report, divided or not, is answered with the size failure if and only if some chunk of its one packing has an id and corrected counts longer than the reserve, the stated counts and its free bytes together |
| `EnvelopeTheorems.HonestCountsAreNoWider` | form/src/kcatta_form/telemetry_chunks.py:137-157 | reports whose runs count at least their findings meet the width condition |
| `EnvelopeTheorems.UnderstatedCountsCanFire` | form/src/kcatta_form/telemetry_chunks.py:137-170 | a report with a 256-byte id that claims one finding and holds ten is answered with the size failure |
| `EnvelopeTheorems.WideIdentifiersCanFire` | form/src/kcatta_form/telemetry_chunks.py:80-87 | so is a report that counts correctly but has an id of 256 two-byte characters |
| `EnvelopeTheorems.CountsConserved` | form/src/kcatta_form/telemetry_chunks.py:130-171 | for each detector run the chunks’ counts add up to the count of the whole report |
| `EnvelopeTheorems.CountsAreTrue` | form/src/kcatta_form/telemetry_chunks.py:137-157 | each envelope counts its findings from the sources of that detector: Defender findings and events, malware and ClamAV, posture, secrets, none for the two feeds; over all envelopes they add up to the report’s |
| `Identifiers.ExpandThreatMatches` | form/src/kcatta_form/telemetry_chunks.py:195-215 | every match kept once in order, at most 64 to a child, all but the last full, each child under its derived id |
| `Identifiers.MatchIdsDistinct` | form/src/kcatta_form/telemetry_chunks.py:42-43 | the derived ids of one event’s children are distinct and at most 256 characters however long its own id, unless digests collide |
| `MdvmModel.Ordered` | form/src/kcatta_form/mdvm.py:621-627 | the batch sorted by event time with upserts before fixes, nothing lost or added |
| `MdvmAnswers.FoldingOrder` | form/src/kcatta_form/mdvm.py:621-627 | by event time, upserts before fixes at one instant, and otherwise as the batch lists them |
| `MdvmFold.PutAllAt` | form/src/kcatta_form/mdvm.py:632-647 | folding a batch settles each record by its last change and leaves other records alone |
| `MdvmFold.WindowMirrors` | form/src/kcatta_form/mdvm.py:611-653 | a time-ordered window reaching back far enough carries the set from one instant to a later one, whatever it repeats |
| `MdvmFold.FoldOnceMirrors` | form/src/kcatta_form/mdvm.py:587-653 | folding a whole log once in time order leaves active exactly the records whose newest change is an upsert |
| `MdvmFold.UnambiguousConsistent` | form/src/kcatta_form/mdvm.py:612-620 | the ambiguity test passes exactly the batches in which no record is fixed and active at one time |
| `MdvmFold.DeltaOrderIrrelevant` | form/src/kcatta_form/mdvm.py:611-653 | a delta leaves the same active records in whatever order and however often its batch lists the changes |
| `MdvmRuns.StepKept` | form/src/kcatta_form/mdvm.py:858-944 | every step of any process keeps the set equal to the log at the last committed fetch, and the watermark behind it |
| `MdvmRuns.WindowsConverge` | form/src/kcatta_form/mdvm.py:864-924 | over every run with crashes, failed hand-offs and lost leases the active keys, and the findings where times are unique, equal one fold of the whole log up to the last committed fetch |
| `MdvmRuns.WatermarkIsCovered` | form/src/kcatta_form/mdvm.py:730-771 | every change visible when the acknowledged synchronisation started is in the set |
| `MdvmAnswers.PlanAnswer` | form/src/kcatta_form/mdvm.py:876-889 | a baseline exactly when none is known, the last is as old as the refresh interval or the watermark is thirteen days old; otherwise a delta from the watermark less the overlap |
| `MdvmAnswers.DeltaFollowsBaseline` | form/src/kcatta_form/mdvm.py:871-883 | over every run a delta is planned only on an acknowledged baseline that started less than the refresh interval before |
| `MdvmAnswers.EndAnswer` | form/src/kcatta_form/mdvm.py:730-783 | success sets watermark, last baseline and lease for the owner alone, failure only frees its lease |
| `MdvmAnswers.LeaseAnswer` | form/src/kcatta_form/mdvm.py:524-537 | given to its holder or when free or over, and then kept from others until it ends |
| `MdvmAnswers.CommitAnswer` | form/src/kcatta_form/mdvm.py:576-653 | stored exactly for the owner, without clash, within both capacities |
| `MdvmRuns.MirrorOnlyAdvances` | form/src/kcatta_form/mdvm.py:544-549 | a late commit by a process that lost its lease never undoes a newer one |
| `MdvmRuns.HandOverCoversChanges` | form/src/kcatta_form/mdvm.py:902-924 | a delta about to be acknowledged hands over the device of every change that appeared since the previous acknowledged one, also those a failed run had stored |
| `MdvmRuns.BaselineHandsOverIff` | form/src/kcatta_form/mdvm.py:587-609 | a baseline hands over a device if and only if it occurs in the export, that is, still has an active record |
| `MdvmWitness.EmptiedDeviceIsNeverHandedOver` | form/src/kcatta_form/mdvm.py:876-924 | a run in which a device is emptied between two baselines and neither the second baseline nor the delta after it hands it over |
| `MdvmRuns.LateChangeIsMissed` | form/src/kcatta_form/mdvm.py:887-889 | a change that shows up later than the overlap is missed by the window |
| `MdvmStore.PutAllDevices` | form/src/kcatta_form/mdvm.py:551-574 | every active record keeps a device row, and a batch adds exactly its devices |
| `MdvmStore.ObservationIsNewest` | form/src/kcatta_form/mdvm.py:562-564 | a device’s observation is the newest of what it had and what the batch says |
| `MdvmAnswers.ProfileIsLast` | form/src/kcatta_form/mdvm.py:551-574 | a device shows the profile of the last change folded for it |
| `MdvmAnswers.OtherDevicesStay` | form/src/kcatta_form/mdvm.py:551-574 | a device no change speaks of keeps its row |
| `MdvmStore.MdvmSyncState.constructor` | form/src/kcatta_form/mdvm.py:473-522 | a new state is empty, unleased and without watermark |
| `MdvmStore.MdvmSyncState.TakeLease` | form/src/kcatta_form/mdvm.py:524-537 | granted exactly when the lease is free, expired or already the owner’s |
| `MdvmStore.MdvmSyncState.ReplaceBaseline` | form/src/kcatta_form/mdvm.py:587-609 | replaces both tables by the export or rolls back, for the lease owner only, and reports exactly the export’s devices |
| `MdvmStore.MdvmSyncState.FindsClash` | form/src/kcatta_form/mdvm.py:612-620 | finds a clash exactly when the batch fixes and keeps one record at one time |
| `MdvmStore.MdvmSyncState.ApplyDelta` | form/src/kcatta_form/mdvm.py:611-653 | folds the ordered batch or rolls back; refused for a clash, a lost lease or over capacity; every reported device has a row |
| `MdvmStore.MdvmSyncState.Succeed` | form/src/kcatta_form/mdvm.py:730-771 | only the lease owner moves the watermark, and the lease is given up |
| `MdvmStore.MdvmSyncState.Fail` | form/src/kcatta_form/mdvm.py:773-783 | gives up the owner’s lease and leaves the watermark |
| `MdvmBatches.Parts` | form/src/kcatta_form/mdvm.py:684-692 | all rows of a device once in order, every part but the last full, one empty part for a device without findings |
| `MdvmBatches.Batches` | form/src/kcatta_form/mdvm.py:813-835 | lossless, within both limits and greedy; refused exactly when one snapshot is over the byte limit |
| `MdvmBatches.FewestBatches` | form/src/kcatta_form/mdvm.py:817-835 | no other grouping in order within the limits needs fewer batches |
| `Migration.LastAppendsSnoc` | form/src/kcatta_form/control_state_migration.py:174-186 | removing and reinserting a key on every append is keeping the records without a later one of their id |
| `Migration.LastAppendsAre` | form/src/kcatta_form/control_state_migration.py:166-186 | a kept record is the last append of its id, and every last append is kept |
| `Migration.LastAppendsDistinct` | form/src/kcatta_form/control_state_migration.py:174-186 | one record per id |
| `Migration.LatestValid` | form/src/kcatta_form/control_state_migration.py:166-186 | the last append of each id in order of those appends, or refusal at the first invalid record |
| `Migration.AppendMissing` | form/src/kcatta_form/control_state_migration.py:195-213 | existing ids win, the rest is appended in order, and every record is counted once as migrated or skipped |
| `Migration.CopySomeIs` | form/src/kcatta_form/control_state_migration.py:203-212 | a copy interrupted after so many appends has appended the first so many missing records |
| `Migration.ResumedCopy` | form/src/kcatta_form/control_state_migration.py:203-213 | resuming an interrupted copy ends where an uninterrupted one does, and their appends add up |
| `Migration.RestartSafe` | form/src/kcatta_form/control_state_migration.py:284-293 | any number of runs interrupted after any number of appends, then a full run, leave the logs of one uninterrupted run |
| `Migration.TargetsFirst` | form/src/kcatta_form/control_state_migration.py:286-290 | no interrupted run leaves a copied job while a target is still to copy |
| `Migration.RerunIsIdle` | form/src/kcatta_form/control_state_migration.py:195-213 | a second full run appends nothing |
| `Migration.ExistingWins` | form/src/kcatta_form/control_state_migration.py:205-209 | the old log stays a prefix and no appended record repeats one of its ids |
| `Migration.RecoverJobs` | form/src/kcatta_form/control_state_migration.py:269-282 | fails exactly the pending and running jobs at the migration time, keeps every other job as it was, and remembers their ids |
| `Migration.TargetsArrive` | form/src/kcatta_form/control_state_migration.py:264-287 | exactly the last appended target of each new id arrives, each id once |
| `Migration.JobsArrive` | form/src/kcatta_form/control_state_migration.py:269-290 | exactly the last appended job of each new id arrives, each id once: as it was, or failed at the migration time with the migration error if it was pending or running |
| `Migration.Migrate` | form/src/kcatta_form/control_state_migration.py:262-306 | nothing is written unless both sources validate; otherwise both logs and all counts are as specified |

## Left out

- Payload byte limits, page budgets and full disks: they only refuse a transaction, which then changes nothing.
- Read-only queries (`get`, `list`, `tail`, `history`, `fingerprint`), `import_legacy` and schema creation: plumbing without further invariants.
- Rejection of malformed texts (empty tokens, bad hexadecimal, unknown scopes) and the normalisation of ids.
- `revision`, `updated_at`, public-key and PEM columns of identities: copied and never decided on.
- Worker classes: the worker, certificate staging and Guard reconciliation are state machines on values, since what matters in them is interleaving; the in-place update of the process's dictionaries and job copies is not captured.
- `_dispatch_available`: a worker is started for every issued claim; the per-process slot count and the list of excluded ids are arbitrary.
- Inside `WorkerSystem` a compensation or a Guard proof is one answer; `Compensation` and `Reconcile` model their steps on their own. `_bind_legacy_guard_deployment` is such an answer only.
- The spool: a job's stored artifact is of the job's own kind; encryption, quotas and orphan sweeps are not modelled.
- SHA-256 and the encoded length of rows: given functions; the bytes of an id are a given function too, UTF-8 in the examples, and JSON escapes are not modelled.
- Parsing of unbounded reports and batches (`parse_unbounded_asset_report`, `parse_unbounded_trace_batch`).
- MDVM fetching, paging, record normalisation, host mapping and batch ids; the state row's counters and messages; rows of a device are given in key order.
- MdvmRuns.WindowsConverge: a fetch is one instant; changes that appear while pages are being read count from the next fetch.
- Delay jitter of retries: any delay.
- Reading the legacy stores and choosing between JSONL and SQLite; `storage` is not part of this model beyond append and find.
- X.509 building, key files, TLS reload, the admin UI, command lines, metrics and configuration parsing.
