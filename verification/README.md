# Warden: replication, job supervision and limiters in Dafny

Warden is a DNS filter with replicated operator policy. This project models its
stateful logic and proves what every run of it keeps. `dafny verify
dfyconfig.toml` checks all files together.

- **Job supervisor** (`JobProtocol`, `JobInvariant`, `JobSteps`, `JobTheorems`,
  `JobViews`, `JobRegistry`, `PlanSlots`, `Activation`, `ActivationRuns`). Each mutex section is
  one step of a state machine over the job registry, the resumption registry, the
  backlog, the bounded queue, the tasks and the one-shot waiters; the gap between
  inserting a record and sending its job is a state of its own. The class `Inner`
  updates the registries in place and is proved equal to the steps. `Activation`
  follows one committed receipt through any number of interrupted completion attempts, one
  after another; `ActivationRuns` lets them overlap, as an apply and a resumption
  of one key can.
- **Private store** (`PrivateStore`). A disk is a base directory, a log of unsynced
  directory changes of which a crash keeps any subset, and the bytes known synced.
- **Artifact apply** (`ArtifactApply`, `ArtifactSteps`, `ArtifactReceiver`,
  `Inventory`, `Overlays`). The receiver changes two stores, the policy tree with
  its transaction journal and the ownership ledger with its pending intent. Every
  method takes the number of durable writes left before the process stops, so its
  contract speaks about every stopping point. Checks the code makes on its own
  evidence are assertions: none can fail.
- **Publication** (`Publication`, `PublicationStores`). Pending intents are settled
  by transaction receipts; a failed state write may or may not have landed.
- **Artifacts** (`Requirements`, `RuleCounts`, `Artifact`, `ArtifactVerify`,
  `ArtifactIntegrity`, `Admission`). The rule grammar, the digest, the text, TOML and JSON codecs and the policy hash
  are function parameters with stated contracts.
- **Acknowledgements** (`Acknowledgement`, `AcknowledgementHandles`, `NodeRuns`), the
  **limiters** (`RateLimit`, `AuthLimiter`) and the **OUI packer** (`Text`, `Utf8`,
  `Csv`, `OuiPack`, `OuiRows`, `OuiIndex`), with the reader that searches the packed files.
  `Common` and `Receipts` hold what several modules share.

Clocks are natural numbers in nanoseconds or seconds, map iteration orders are
parameters, and calls into other components appear as parameters that may fail.

What the proofs bring out about the code:

- A hexadecimal pair of an assignment may start with a plus sign
  (`tools/oui_pack.rs:159-170`).
- A failure table with cap zero holds one entry (`src/auth/middleware.rs:158-175`).
  The comment on the table promises its cap outright; the code is followed.
- A half-open minute admits up to twice the limit less one
  (`src/api/rate_limit.rs:71-107`).
- A removal that failed between its unlink and its directory sync is not made
  durable by repeating it (`src/private_store.rs:258-267`).
- Of two overlapping completions of one receipt, the later one can put a durable
  outcome back to pending and send again (`src/config/policy_transaction.rs:1838-1847`).

## Model

| member | source | states |
|---|---|---|
| `JobTheorems.StepKeepsInv` | src/api/operator_rule_jobs.rs:235-327 | every critical section, worker step and loop move keeps the whole supervisor invariant: one job per key, waiter conservation, waiters allowed by phase, capacities, loop consistency |
| `JobTheorems.RunKeepsInv` | src/api/operator_rule_jobs.rs:235-327 | under every interleaving of any number of callers, workers and the loop, every reachable state satisfies that invariant |
| `JobTheorems.OneJobWherever` | src/api/operator_rule_jobs.rs:411-440 | counting every place a job can be, a key has exactly one Apply job while its record is queued or prepared and none otherwise, and exactly one Resume job while it is in the resumption registry and none otherwise |
| `JobTheorems.WaitersAreConserved` | src/api/operator_rule_jobs.rs:957-998 | a registered waiter is held under its own key and kind, or was pruned after its receiver closed, or was answered exactly once with a reply of its kind; exactly one of the three |
| `JobTheorems.CapacitiesHold` | src/api/operator_rule_jobs.rs:838-881 | jobs, prepared, terminal and resumption waiters, queued jobs and running jobs never exceed their configured limits |
| `JobTheorems.SweepDropsNoWaiter` | src/api/operator_rule_jobs.rs:1639-1645 | in every reachable state the time-to-live sweep removes no record that still holds an unanswered waiter |
| `JobTheorems.ReplyIsFinal` | src/api/operator_rule_jobs.rs:1139-1189 | the first reply a waiter receives is never replaced or repeated in the rest of the run |
| `JobTheorems.ReturnedLoopIsEmpty` | src/api/operator_rule_jobs.rs:241-269 | when the loop has returned, queue, backlog and tasks are empty, and every waiter still held belongs to a submitter that has yet to send or to answer: its send is refused, and its failure handling answers every waiter of its key |
| `JobTheorems.DrainComesNearer` | src/api/operator_rule_jobs.rs:241-269 | each move of the stopping loop strictly decreases the number of moves it has left, and leaves it stopping or returned |
| `JobTheorems.OthersDoNotDelay` | src/api/operator_rule_jobs.rs:241-269 | no step of a caller, worker or retry takes the stopping loop back, except that a recovery still at work adds at most one move per job it reports |
| `JobTheorems.DrainIsNeverStuck` | src/api/operator_rule_jobs.rs:266-269 | the stopping loop can move if and only if it does not wait, with nothing to join, for a task that is still at work |
| `JobTheorems.DrainIsBounded` | src/api/operator_rule_jobs.rs:241-269 | from any stopping state of any run the loop makes at most its measured number of moves, plus one for each job a recovery still at work reports, and stays stopping or returned |
| `JobTheorems.DrainEnds` | src/api/operator_rule_jobs.rs:241-269 | without a recovery at work the shutdown makes a bounded number of moves, has returned once it has made them, and while no task runs has returned or can move |
| `JobTheorems.DrainReturns` | src/api/operator_rule_jobs.rs:241-269 | from every stopping state whose tasks have ended, the loop's own moves carry it to its return within that bound |
| `JobTheorems.ClientStepKeepsJobs` | src/api/operator_rule_jobs.rs:643-654 | steps of callers, the gap between record and send included, keep one job per live key |
| `JobTheorems.WorkerStepKeepsJobs` | src/api/operator_rule_jobs.rs:1293-1352 | ending a worker removes its job together with the live phase of its record, and nothing else |
| `JobTheorems.LoopStepKeepsJobs` | src/api/operator_rule_jobs.rs:241-299 | recovery, backlog, queue and drain moves keep one job per live key |
| `JobViews.RegistryShowsView` | src/api/operator_rule_jobs.rs:1139-1189 | in every state of every run the registry holds of each key exactly what an automaton over the steps says: the submission that opened the record, the last report on it and its time, gone once failed or expired |
| `JobViews.RecordOrigin` | src/api/operator_rule_jobs.rs:864-881 | a known record was opened by one enqueued submission and has carried that plan and base revision ever since |
| `JobViews.ToldOrigin` | src/api/operator_rule_jobs.rs:1139-1189 | what a record tells was reported by a prepared, update, finish or reconcile step of its key while it was known, and nothing was reported since |
| `JobViews.SubmissionAnswered` | src/api/operator_rule_jobs.rs:829-881 | a submission is answered by what it finds of its key: Conflict if and only if the record was opened for another plan or another base revision, and then nothing but the sweep happens; a place among the waiters exactly while fewer than the limit listen; the last receipt otherwise; enqueued exactly without a record and with room |
| `JobViews.ReplayIsOwn` | src/api/operator_rule_jobs.rs:1053-1100 | a replayed receipt is the latest report on a record that an enqueued submission of the same key, plan and base revision opened |
| `JobViews.TerminalAnswered` | src/api/operator_rule_jobs.rs:957-998 | a terminal wait gets the final receipt of the operation it names, a place among its listening waiters while it is at work, and is sent to the durable store otherwise |
| `JobViews.AdmissionAnswered` | src/api/operator_rule_jobs.rs:1191-1238 | a resumption is refused as live exactly while the same submission is at work, answered from the record exactly when that owes nothing, and otherwise joins or starts within the limits |
| `JobViews.ReplyHasCause` | src/api/operator_rule_jobs.rs:1139-1189 | every reply was given by a step of the waiter's own key and kind and carries that step's receipt; a refusal comes only from a step that gave the job up |
| `JobViews.SendIsQueued` | src/api/operator_rule_jobs.rs:885-906 | a send joins the end of an open queue with room, and stays with its submitter otherwise |
| `JobViews.RecoveryResumesAll` | src/api/operator_rule_jobs.rs:417-439 | after recovery every reported key is in the resumption registry, a new one with its job in the backlog |
| `JobInvariant.AnswerKeeps` | src/api/operator_rule_jobs.rs:1139-1148 | answering and emptying one waiter list keeps every waiter accounted for |
| `JobInvariant.AnswerBothKeeps` | src/api/operator_rule_jobs.rs:1159-1189 | answering and emptying both lists of one record keeps every waiter accounted for |
| `JobInvariant.JoinKeeps` | src/api/operator_rule_jobs.rs:1088-1098 | pruning closed waiters and registering a new one, when there is room, keeps every waiter accounted for |
| `JobSteps.SubmitKeeps` | src/api/operator_rule_jobs.rs:832-881 | the submission section keeps conservation, phases and bounds |
| `JobSteps.AdmitKeeps` | src/api/operator_rule_jobs.rs:1191-1238 | admitting a resumption keeps conservation, phases and bounds |
| `JobSteps.MarkFinishedKeeps` | src/api/operator_rule_jobs.rs:1159-1177 | finishing a job keeps conservation, phases and bounds |
| `JobSteps.RecoverFillJobs` | src/api/operator_rule_jobs.rs:417-439 | filling the backlog from pending completions adds exactly one Resume job for each key not already registered |
| `JobRegistry.Inner.constructor` | src/api/operator_rule_jobs.rs:206-225 | the registries start empty |
| `JobRegistry.Inner.CleanupJobs` | src/api/operator_rule_jobs.rs:1639-1645 | the sweep leaves exactly the records the sweep function keeps |
| `JobRegistry.Inner.Retain` | src/api/operator_rule_jobs.rs:1088-1090 | drops exactly the waiters whose receiver closed |
| `JobRegistry.Inner.Answer` | src/api/operator_rule_jobs.rs:1139-1148 | delivers one reply to each waiter of a list and records it |
| `JobRegistry.Inner.JoinPrepared` | src/api/operator_rule_jobs.rs:1088-1098 | prunes, then registers or refuses, as the protocol step |
| `JobRegistry.Inner.ExistingSubmission` | src/api/operator_rule_jobs.rs:1053-1100 | in-place lookup equals the protocol step, conflicts and replays included |
| `JobRegistry.Inner.SubmitSection` | src/api/operator_rule_jobs.rs:832-881 | in-place submission equals the protocol step |
| `JobRegistry.Inner.FailBeforeIntent` | src/api/operator_rule_jobs.rs:1179-1189 | in-place failure equals the protocol step |
| `JobRegistry.Inner.Prepared` | src/api/operator_rule_jobs.rs:1139-1148 | in-place hand-off equals the protocol step |
| `JobRegistry.Inner.UpdateInProgress` | src/api/operator_rule_jobs.rs:1150-1157 | rewrites only a prepared record |
| `JobRegistry.Inner.Finished` | src/api/operator_rule_jobs.rs:1159-1177 | in-place completion equals the protocol step |
| `JobRegistry.Inner.WaitTerminalSection` | src/api/operator_rule_jobs.rs:957-998 | in-place terminal wait equals the protocol step |
| `JobRegistry.Inner.AdmitResumption` | src/api/operator_rule_jobs.rs:1191-1238 | in-place admission equals the protocol step |
| `JobRegistry.Inner.EndResumption` | src/api/operator_rule_jobs.rs:1240-1263 | in-place end of a resumption equals the protocol step |
| `JobRegistry.Inner.ReconcileUncertain` | src/api/operator_rule_jobs.rs:1265-1276 | rewrites only a finished uncertain record |
| `JobRegistry.Inner.ReconcileOperation` | src/api/operator_rule_jobs.rs:1278-1290 | rewrites only the finished record of that operation |
| `JobRegistry.Inner.RecoverSection` | src/api/operator_rule_jobs.rs:417-439 | the recovery loop equals the protocol's fill of registry and backlog |
| `PlanSlots.RunKeepsInv` | src/api/operator_rule_jobs.rs:533-589 | in every interleaving, sweeps by calls that fail included, each stored plan owns its permit, none of them still planning, and no more permits are in use than exist |
| `PlanSlots.CapacityHolds` | src/api/operator_rule_jobs.rs:546-583 | stored plans and plans in the making together never exceed the plan capacity |
| `PlanSlots.CopyKeepsSlot` | src/api/operator_rule_jobs.rs:1108-1119 | a submission that took a copy keeps the slot taken after the stored plan expired |
| `PlanSlots.TakenIsOwn` | src/api/operator_rule_jobs.rs:1101-1119 | a submission takes only a plan that its own actor stored and that has not expired, and its copy shares that plan's slot |
| `Activation.NeverReactivated` | src/api/operator_rule_jobs.rs:1354-1365 | over any history of interrupted attempts that run one after another, nothing is queued or sent after an outcome became durable |
| `ActivationRuns.FinalStays` | src/api/operator_rule_jobs.rs:1354-1365 | with any number of attempts overlapping: once the outcome is durable and no attempt that read the receipt earlier still has its queue record or send to come, nothing is ever sent again and the outcome is never put back to pending |
| `ActivationRuns.ReactivatedExactly` | src/config/policy_transaction.rs:1838-1847 | a durable outcome can be followed by a send if and only if the receipt has a policy hash and some attempt that read it while pending still has its queue record or its send to come; a late queue record puts the receipt back to pending |
| `ActivationRuns.OverlapReactivates` | src/api/operator_rule_jobs.rs:829-906 | for every pending receipt with a policy hash: two overlapping attempts, one of which sends after the other's outcome became durable |
| `Activation.CompletionIsWellShaped` | src/api/operator_rule_jobs.rs:1354-1365 | a completion log queues and sends only for a receipt that needs activation, the queue record first, the send second, and records only decided outcomes |
| `Activation.AttemptKeepsOrder` | src/api/operator_rule_jobs.rs:1383-1548 | stopping an attempt after any number of its effects keeps the history ordered |
| `Activation.Completion.constructor` | src/api/operator_rule_jobs.rs:1354-1365 | starts from the committed receipt with no effects |
| `Activation.Completion.CompleteActivation` | src/api/operator_rule_jobs.rs:1550-1576 | one completion is tried; the service's receipt is returned on success, the cached one otherwise |
| `Activation.Completion.Deliver` | src/api/operator_rule_jobs.rs:1430-1548 | after the queue record: at most one send, then one completion; the recorded outcome is applied if and only if the send was accepted and the daemon reported the policy active, superseded if and only if it reported another operation, failed if and only if the send was refused or rejected, unknown otherwise |
| `Activation.Completion.ActivateCommitted` | src/api/operator_rule_jobs.rs:1383-1548 | performs exactly the attempt's effects as far as it gets: at most one send, right after the durable queue record of the same correlation and right before the attempt's one completion of that correlation, nothing after a refused queue record; the receipt stays pending if and only if a needed record failed, and otherwise returned and durable outcome are the daemon's answer |
| `Activation.Completion.QueueAndDeliver` | src/api/operator_rule_jobs.rs:1403-1548 | the same for an attempt that has a correlation |
| `Activation.OutcomeIsEarned` | src/api/operator_rule_jobs.rs:1507-1548 | over any history of attempts one after another, the durable outcome is the last one recorded and the effect before it is the request it answers: applied only after an accepted send of the same correlation that the daemon answered as active |
| `ActivationRuns.DurableOutcomeIsEarned` | src/api/operator_rule_jobs.rs:1507-1548 | however attempts overlap, a durable outcome other than unknown answers a request sent earlier: applied only if the daemon accepted it and reported the policy active |
| `Activation.Completion.RecordReceiptAudit` | src/api/operator_rule_jobs.rs:1578-1598 | one audit record is tried; failure marks the cached receipt pending |
| `Activation.Completion.CompletePostCommit` | src/api/operator_rule_jobs.rs:1354-1379 | the identity without effects exactly when no completion is owed; finished, a decided receipt is audited if the record landed, and a pending change carries the daemon's answer if its record landed |
| `Activation.Completion.Resume` | src/api/operator_rule_jobs.rs:1337-1352 | any number of attempts one after another, with stops in between, keeps the history ordered |
| `PrivateStore.RestartShows` | src/private_store.rs:88-92 | a store reopened after a power cut shows one of the foreseen contents and is sound again |
| `PrivateStore.SyncDirShows` | src/private_store.rs:245-255 | after the directory sync a power cut can show only the current contents |
| `PrivateStore.HiddenBytes` | src/private_store.rs:222-240 | writing or syncing the staging entry adds nothing a power cut could show |
| `PrivateStore.PayloadNames` | src/private_store.rs:359-366 | an accepted name is one path component of at most 128 bytes that is not hidden and none of the store's own entries |
| `PrivateStore.RenameShows` | src/private_store.rs:241-250 | once the rename is issued a power cut shows the old or the complete new content, all other names unchanged |
| `PrivateStore.UnlinkShows` | src/private_store.rs:258-267 | once an unlink is issued a power cut shows the entry or its absence, all other names unchanged |
| `PrivateStore.ReopenedShowsOldOrNew` | src/private_store.rs:88-92 | restarting after a crash anywhere in a write to a settled store shows the previous or the complete new content, every other name unchanged, and only the new content once the write is settled |
| `PrivateStore.Store.WriteThenReopen` | src/private_store.rs:209-255 | a write stopped anywhere, a power cut and the next open: the previous or the complete new content of this name, every other name unchanged, only the new content if the write reported success, and, once the open finishes, durably no staging entry |
| `PrivateStore.StoppedRemovalCanReturn` | src/private_store.rs:258-267 | for every name and content: a removal stopped before its directory sync leaves the name gone for the running store, so a repeated removal syncs nothing, yet a power cut can bring the entry back |
| `PrivateStore.Store.constructor` | src/private_store.rs:41-97 | a store over a given disk |
| `PrivateStore.Store.DropStage` | src/private_store.rs:88-92 | removes a stale staging entry, changes no payload and adds nothing a power cut could show |
| `PrivateStore.Store.Open` | src/private_store.rs:41-97 | changes no payload, adds nothing a power cut could show, and on success leaves no staging entry |
| `PrivateStore.Store.Read` | src/private_store.rs:172-198 | returns exactly the stored bytes, refusing reserved names and oversized entries |
| `PrivateStore.Store.WriteInner` | src/private_store.rs:209-255 | stopped anywhere, every crash image shows old or new; after success only the new content; create never replaces an entry |
| `PrivateStore.Store.Remove` | src/private_store.rs:258-267 | stopped anywhere, every crash image shows the entry or its absence; after success no crash image shows the name if and only if the name was in the directory or no crash image showed it before; from a settled store, always |
| `PrivateStore.Store.Names` | src/private_store.rs:270-315 | lists every entry once, and fails exactly on a foreign name or above the bound |
| `ArtifactApply.AfterIsAttested` | src/cluster/ledger.rs:428-458 | a committed journal attests exactly the identity of each live after state |
| `ArtifactApply.RolledBackAgrees` | src/cluster/ledger.rs:677-754 | after a complete rollback the restored ledger agrees with the tree and both stores are as before |
| `ArtifactApply.CommittedAgrees` | src/cluster/ledger.rs:407-497 | after a complete commit the new ledger agrees with the tree and both stores are the artifact's |
| `ArtifactSteps.BeginKeeps` | src/cluster/ledger.rs:262-304 | persisting the intent keeps the two stores related |
| `ArtifactSteps.SetUpKeeps` | src/config/policy_transaction.rs:1061-1078 | publishing the setup journal keeps the two stores related |
| `ArtifactSteps.ReceiptKeeps` | src/config/policy_transaction.rs:1080-1086 | writing the undecided receipt keeps the two stores related |
| `ArtifactSteps.BindKeeps` | src/cluster/ledger.rs:380-404 | binding the intent to its transaction keeps the two stores related |
| `ArtifactSteps.ReadyKeeps` | src/config/policy_transaction.rs:1290-1310 | allowing member changes keeps the two stores related |
| `ArtifactSteps.MovingStep` | src/config/policy_transaction.rs:1300-1335 | rewriting one member record or its live image leaves every member at its before or its after image |
| `ArtifactSteps.RecordRestored` | src/config/policy_transaction.rs:3308-3315 | journalling the restored identity before the rename keeps every member recognisable |
| `ArtifactSteps.RenamedBack` | src/config/policy_transaction.rs:3316-3330 | renaming the rollback copy back restores exactly that member |
| `ArtifactSteps.Unlinked` | src/config/policy_transaction.rs:3236-3245 | unlinking a created member restores its absence |
| `ArtifactSteps.DropFenceKeeps` | src/config/policy_transaction.rs:2150-2153 | removing a fence without a receipt loses nothing: the tree is still the baseline |
| `ArtifactSteps.TerminalizeKeeps` | src/config/policy_transaction.rs:3829-3856 | moving a terminal fence to the undo store keeps the two stores related |
| `ArtifactSteps.DecideKeeps` | src/config/policy_transaction.rs:3814-3824 | giving the receipt the decision of its terminal undo keeps the two stores related |
| `ArtifactSteps.ClearKeeps` | src/cluster/ledger.rs:516-522 | clearing an intent over an unchanged tree leaves both stores old |
| `ArtifactSteps.CompleteKeeps` | src/cluster/ledger.rs:407-497 | completing ownership of a committed transaction leaves both stores new |
| `ArtifactSteps.RestoreOwnershipKeeps` | src/cluster/ledger.rs:531-537 | restoring ownership after a rollback leaves both stores old |
| `ArtifactSteps.ReceiptFollowsJournal` | src/config/policy_transaction.rs:3814-3824 | once nothing is undecided the receipt says what the journal decided |
| `ArtifactSteps.ObjectAttested` | src/cluster/ledger.rs:435-463 | the journal evidence for every artifact object is there, is live and has the artifact's content |
| `ArtifactSteps.DropAttested` | src/cluster/ledger.rs:464-485 | every owned path the artifact drops is attested deleted and is gone |
| `ArtifactSteps.RestoredAttested` | src/cluster/ledger.rs:693-735 | only owned members carry restored identities, and those are live |
| `ArtifactReceiver.BothNewMeans` | src/cluster/artifact_apply.rs:416-441 | both stores new, path by path: the artifact's objects are there and owned, files the node owned and the artifact does not name are gone, every other file is as it was |
| `ArtifactReceiver.Receiver.constructor` | src/cluster/artifact_apply.rs:73-117 | a node before its first artifact |
| `ArtifactReceiver.Receiver.RestoreOne` | src/config/policy_transaction.rs:3229-3246 | one member of the restore loop, stoppable before each durable write |
| `ArtifactReceiver.Receiver.RestoreMembers` | src/config/policy_transaction.rs:3192-3247 | stopped anywhere the transaction stays recoverable; finished, every member is at its before image, within two writes per member |
| `ArtifactReceiver.Receiver.RollBack` | src/config/policy_transaction.rs:3192-3263 | restores every member and journals the clean-up phase, stoppable before each durable write |
| `ArtifactReceiver.Receiver.AbortFence` | src/config/policy_transaction.rs:2158-2183 | rolls an undecided transaction back to a terminal abort |
| `ArtifactReceiver.Receiver.DecideFence` | src/config/policy_transaction.rs:2156-2227 | drives an active fence forward if the commit was journalled and back otherwise, or stops recoverable |
| `ArtifactReceiver.Receiver.CloseFence` | src/config/policy_transaction.rs:2239-2240 | terminal rename, then the receipt; the journalled decision is kept |
| `ArtifactReceiver.Receiver.ReconcileReceipts` | src/config/policy_transaction.rs:3794-3827 | an undecided receipt takes its undo's decision; the required undo entry always exists |
| `ArtifactReceiver.Receiver.Recover` | src/config/policy_transaction.rs:2053-2244 | stopped anywhere the stores stay related and the journalled decision stands; finished, no fence and no undecided receipt is left; idle without an intent |
| `ArtifactReceiver.Receiver.AttestedEntries` | src/cluster/ledger.rs:428-485 | none of the evidence checks can fail, and the entries are the live files |
| `ArtifactReceiver.Receiver.RestoredEntries` | src/cluster/ledger.rs:693-735 | each restored file takes its restored identity, the others stay |
| `ArtifactReceiver.Receiver.RestoredOwnership` | src/cluster/ledger.rs:677-754 | the restored ledger, with every check on the rollback evidence passing |
| `ArtifactReceiver.Receiver.Settle` | src/cluster/ledger.rs:499-541 | settles the intent both-new by a retained commit receipt and both-old otherwise; fails if and only if the receipt expired over a changed tree |
| `ArtifactReceiver.Receiver.Load` | src/cluster/artifact_apply.rs:73-117 | once recovery at load succeeds no intent is left, ledger and tree agree, and both are new if the commit was journalled and its receipt is retained, both old otherwise; stopped or failed, the intent and the decision are kept; it finishes within two writes per journal member and five more |
| `ArtifactReceiver.Receiver.LoadAfterCrashes` | src/cluster/artifact_apply.rs:73-117 | any number of starts stopped anywhere, the receipt expired or not at each: the first that finishes settles the intent by the decision journalled before them all and its own expiry, and until then the intent and the decision are kept; a start finishes with two writes per member and five more, unless the receipt expired |
| `ArtifactReceiver.Receiver.Prepare` | src/config/policy_transaction.rs:1061-1110 | setup, prepared journal, receipt and binding, stoppable before each write |
| `ArtifactReceiver.Receiver.PromoteOne` | src/config/policy_transaction.rs:1300-1335 | one promoted member, its identity journalled before the rename |
| `ArtifactReceiver.Receiver.Promote` | src/config/policy_transaction.rs:1290-1336 | stopped anywhere every member is at its before or after image; finished, all are at their after images |
| `ArtifactReceiver.Receiver.Conclude` | src/config/policy_transaction.rs:1337-1364 | over promoted members: the journalled commit decision, the terminal rename and the receipt, in exactly four writes |
| `ArtifactReceiver.Receiver.Commit` | src/config/policy_transaction.rs:1290-1364 | finished, the receipt is committed and the stores settle to new, within two writes per member and five more |
| `ArtifactReceiver.Receiver.Transact` | src/cluster/artifact_apply.rs:256-293 | from an admitted intent to both stores new; stopped or failed, that same intent is pending, or nothing has moved; it is not stopped if two writes per member and eleven more are available |
| `ArtifactReceiver.Receiver.RecoverFailedWrite` | src/cluster/artifact_apply.rs:278-309 | the error paths end both-new or both-old with no intent, or keep the intent |
| `ArtifactReceiver.Receiver.Preflight` | src/cluster/ledger.rs:184-260 | admits exactly fresh epochs over unoccupied or owned destinations, replays exactly the current artifact |
| `ArtifactReceiver.Receiver.Proceed` | src/cluster/artifact_apply.rs:249-309 | an admitted apply and its error path end both-new, both-old, or with the intent kept |
| `ArtifactReceiver.Receiver.Apply` | src/cluster/artifact_apply.rs:168-326 | for every stopping point, against the node before the call or against its old intent settled: success is both-new, rollback is both-old, a refusal or replay changes nothing, and anything else keeps the new intent or leaves nothing moved; stopped earlier still, it keeps the old intent and its decision; with two writes per member of the old journal and of the new one and sixteen more it is not stopped |
| `ArtifactReceiver.Receiver.ApplyThenLoad` | src/cluster/artifact_apply.rs:73-326 | an apply stopped or finished anywhere and then any number of starts: once one finishes, the node is entirely old or entirely new with respect to the node before the call, new if the apply reported success, old if it reported a rollback, refusal or replay |
| `Inventory.CandidateInventory` | src/cluster/artifact_apply.rs:395-442 | built exactly when file count, byte count and objects allow it, from the kept members and the artifact's objects |
| `Inventory.CandidateOverrides` | src/cluster/artifact_apply.rs:416-441 | the candidate is the old inventory overridden by the artifact and without deleted paths; every other member stays byte for byte |
| `Inventory.CandidatePathsDistinct` | src/cluster/artifact_apply.rs:416-441 | the candidate never names a path twice |
| `Overlays.CandidateOverlays` | src/cluster/artifact_apply.rs:444-475 | the overlay loops stage every candidate member and hide every member that is gone, failing exactly on a document that is not text |
| `Overlays.OverlaysShowCandidate` | src/cluster/artifact_apply.rs:444-475 | read through the overlays, every path of the old tree is exactly as in the candidate inventory |
| `Overlays.PackPathRoundTrip` | src/cluster/artifact_apply.rs:477-483 | a pack path gives its identifier back |
| `Overlays.CandidateIsWellShaped` | src/cluster/artifact_apply.rs:427-441 | a candidate keeps packs, and only packs, at pack paths |
| `Acknowledgement.RunKeeps` | src/cluster/acknowledgement.rs:55-151 | over any run of loads and records on any number of handles the durable roster stays strictly ordered, at most 64 long, and holds every handle's peers |
| `Acknowledgement.RosterOnlyGrows` | src/cluster/acknowledgement.rs:84-151 | the durable roster never loses a peer |
| `Acknowledgement.RecordSucceedsExactly` | src/cluster/acknowledgement.rs:84-151 | in a run a record succeeds if and only if the outside cooperates, the identities are valid and the peer is known or the roster has room |
| `Acknowledgement.LoadSucceedsExactly` | src/cluster/acknowledgement.rs:55-81 | a load succeeds if and only if the store can be read or created, and then knows exactly the peers of the roster, none of them heard yet |
| `Acknowledgement.DamagedRosterIsRefused` | src/cluster/acknowledgement.rs:55-113 | a roster file of another format, too long or out of order is neither loaded nor written to |
| `Acknowledgement.HeldIsWellFormed` | src/cluster/acknowledgement.rs:84-151 | whatever a handle holds about a peer in any run is well-formed, whatever was reported to it |
| `Acknowledgement.RecordKeeps` | src/cluster/acknowledgement.rs:84-151 | one record adds at most its own address, and after success the handle's peers are exactly the roster |
| `Acknowledgement.HandleRemembersLast` | src/cluster/acknowledgement.rs:92-151 | a handle holds about a peer exactly what the run says it last heard since its load |
| `Acknowledgement.AvailableFrom` | src/cluster/acknowledgement.rs:92-151 | a handle is available because its latest effective event succeeded |
| `Acknowledgement.AcknowledgesIffEarned` | src/cluster/acknowledgement.rs:153-192 | a peer counts as acknowledging if and only if its last word in this session is a successful, fresh acknowledgement of the desired identity |
| `Acknowledgement.ConvergedIsEarned` | src/cluster/acknowledgement.rs:153-170 | converged only if the handle's latest effective event is a successful record and every peer of the roster it saw has earned it |
| `Acknowledgement.EarnedConverges` | src/cluster/acknowledgement.rs:153-170 | conversely, an available handle whose every peer has earned it is converged |
| `Acknowledgement.ConvergedIffViewed` | src/cluster/acknowledgement.rs:172-186 | convergence is exactly what the view shows: every row fresh with the desired identity on disk and active |
| `Acknowledgement.Insert` | src/cluster/acknowledgement.rs:118-133 | ordered-set insertion keeps the order and adds exactly the new peer |
| `AcknowledgementHandles.PeerAcknowledgements.constructor` | src/cluster/acknowledgement.rs:55-81 | loading equals the load step |
| `AcknowledgementHandles.PeerAcknowledgements.FillFrom` | src/cluster/acknowledgement.rs:131-133 | gives every roster peer an entry and keeps the entries there |
| `AcknowledgementHandles.PeerAcknowledgements.Record` | src/cluster/acknowledgement.rs:84-151 | recording in place equals the record step, failures included |
| `AcknowledgementHandles.NodeAcknowledgements.Record` | src/cluster/acknowledgement.rs:247-285 | a valid acknowledgement replaces the node's, an invalid one forgets it |
| `AcknowledgementHandles.NodeAcknowledgements.Forget` | src/cluster/acknowledgement.rs:243-245 | removes exactly that node |
| `NodeRuns.Replay` | src/cluster/acknowledgement.rs:243-285 | after any history of acknowledgements and removals the object holds exactly each node's last word, unless that was refused or forgotten |
| `NodeRuns.RowShowsLastWord` | src/cluster/acknowledgement.rs:286-323 | a member row is left alone without such a word, and otherwise shows its endpoint and age, and revoked, stale, current or pending each exactly when its condition holds |
| `AcknowledgementHandles.NodeAcknowledgements.Enrich` | src/cluster/acknowledgement.rs:286-323 | every member row is enriched from its own observation only |
| `AcknowledgementHandles.ConvergedIffShownCurrent` | src/cluster/acknowledgement.rs:286-354 | convergence holds if and only if every unrevoked member is active, shown current, and has identity and corpus on disk |
| `Publication.RecoverySettlesByReceipt` | src/cluster/publisher.rs:19-57 | published if and only if committed and not rolled back; retired if and only if aborted, rolled back or receiptless over an unchanged tree; kept unchanged if and only if undecided |
| `Publication.RecoveryTouchesOnlyPending` | src/cluster/publisher.rs:19-57 | recovery changes no record that was not pending |
| `Publication.SecondRecoveryIsIdle` | src/cluster/publisher.rs:19-57 | a second recovery over the same evidence changes nothing |
| `Publication.ResumedRecoverySettles` | src/cluster/publisher.rs:19-57 | any number of recoveries cut short anywhere, then one that finishes, settle every intent exactly as its receipt decides |
| `Publication.RecoveryFinalizes` | src/cluster/publisher.rs:43-50 | recovery publishes from a matching committed receipt exactly the record that finalizing would have written |
| `Publication.CarryKeepsGood` | src/cluster/publication.rs:407-454 | carrying out one verdict keeps the state valid and pending requests unique |
| `Publication.ReservationKeepsGood` | src/cluster/publication.rs:236-318 | a reservation keeps the state valid and pending requests unique |
| `Publication.CollectionKeeps` | src/cluster/publication.rs:532-556 | collection drops neither a pending intent nor the current publication |
| `Publication.CollectionDropsExactly` | src/cluster/publication.rs:532-556 | collection drops exactly unbound reservations and publications whose day is over, the two newest committed ones excepted, and changes nothing else |
| `PublicationStores.PublicationStore.constructor` | src/cluster/publication.rs:151-180 | a new store |
| `PublicationStores.PublicationStore.Reopen` | src/cluster/publication.rs:151-190 | reopening reads the authoritative state |
| `PublicationStores.PublicationStore.Persist` | src/cluster/publication.rs:567-576 | a failed write poisons the store and may or may not have landed |
| `PublicationStores.PublicationStore.CarryOut` | src/cluster/publisher.rs:24-55 | one intent of the recovery loop |
| `PublicationStores.PublicationStore.Recover` | src/cluster/publisher.rs:19-57 | intents in epoch order up to the first error; after a failed write the disk holds a settled prefix |
| `PublicationStores.PublicationStore.LastTwo` | src/cluster/publication.rs:534-543 | the two newest committed epochs |
| `PublicationStores.PublicationStore.Collect` | src/cluster/publication.rs:532-556 | the collected state is written, or is there all the same if the failed write landed |
| `PublicationStores.PublicationStore.Gc` | src/cluster/publication.rs:532-556 | the collected state; pending intents and the current publication stay |
| `PublicationStores.PublicationStore.ReopenAndRecover` | src/cluster/publisher.rs:19-57 | whatever stops it, the disk holds exactly the intents below some epoch settled, no fault among them, and the fault, if that stopped it, at that epoch |
| `PublicationStores.PublicationStore.Tidy` | src/cluster/publisher.rs:67-72 | recovery, then collection; a fault or failed write leaves the intents settled below some epoch, collected only if the collection itself failed after landing |
| `PublicationStores.PublicationStore.Reserve` | src/cluster/publisher.rs:59-100 | the next epoch over the recovered and collected state; unless a fault or failed write stops it, refused exactly when that state has the request pending, no room, no epoch left or the artifact already; stopped, the disk is a settled prefix, the collected state, that with the epoch taken, or the whole reservation if the failed write landed |
| `PublicationStores.PublicationStore.ReserveBound` | src/cluster/publication.rs:236-318 | the epoch is durable before the record that uses it; refuses exactly what the state rejects and then changes nothing; a failed write leaves nothing, the epoch taken, or all of it if it landed |
| `PublicationStores.PublicationStore.Finalize` | src/cluster/publisher.rs:102-116 | refused if and only if the epoch is unknown or another request's, the receipt is not a matching, committed, unrestored one, the artifact is damaged or another receipt was committed before; otherwise committed with that receipt for a day if a write is left, idle for the receipt already committed |
| `PublicationStores.PublicationStore.ReserveThenFinalize` | src/cluster/publisher.rs:59-116 | a reservation that succeeds and is finalized with its committed receipt is committed with that receipt and is the current publication |
| `Requirements.CountPack` | src/cluster/artifact.rs:402-430 | the counting loop equals the counting function, failing on a rule that does not parse |
| `Requirements.PackIsCoherent` | src/cluster/artifact.rs:402-430 | regex <= advanced <= source rules, indexed + regex <= source rules, and no counter exceeds the body's bytes |
| `Requirements.RuleFitsLongest` | src/cluster/artifact.rs:404-409 | the longest-rule counter bounds every rule line |
| `Requirements.TotalIsOrderFree` | src/cluster/manifest.rs:58-73 | the store sum does not depend on the order of the packs |
| `Requirements.MountsAtMostStore` | src/cluster/artifact.rs:434-445 | distinct mounts add up to at most the store, counter by counter |
| `Requirements.StoreIsCoherent` | src/cluster/artifact.rs:430-431 | every sum over packs is coherent and within their bytes |
| `Requirements.CountStore` | src/cluster/artifact.rs:391-433 | accepts exactly packs and totals within their limits that parse, and its 64-bit sums never overflow |
| `Requirements.CountProfile` | src/cluster/artifact.rs:435-444 | the checked sum over one profile's mounts |
| `Requirements.CountProfiles` | src/cluster/artifact.rs:434-446 | all profiles, failing exactly on an unknown mount or an overflow |
| `Requirements.ComputeRequirements` | src/cluster/artifact.rs:380-447 | equals the declarative requirements of bodies and mounts |
| `Requirements.ProfileWithinStore` | src/cluster/artifact.rs:434-446 | a profile with increasing declared mounts is summed exactly, without overflow, and within the store |
| `RuleCounts.RuleLineMeans` | src/cluster/artifact.rs:404-407 | a line states a rule if and only if its first character that is no white space is there and is no number sign |
| `RuleCounts.CountersMean` | src/cluster/artifact.rs:402-430 | a pack is counted if and only if every rule line parses; its counters are then the number of rule lines and, among rules no earlier line states, the numbers matched by the index, needing more, and regular expressions, with their bytes and maxima |
| `RuleCounts.TotalAddsUp` | src/cluster/manifest.rs:58-73 | every counter of a sum over packs is that counter's sum, the two maxima excepted, which are maxima |
| `Artifact.StripIsClean` | src/cluster/artifact.rs:351-374 | stripping leaves nothing the receiver refuses, is idempotent, and leaves exactly the clean documents alone |
| `ArtifactIntegrity.StripDropsExactly` | src/cluster/artifact.rs:351-374 | stripping drops exactly the node-local and excluded sections and the node-local server fields, and leaves every other value alone |
| `ArtifactIntegrity.CapturedExactly` | src/cluster/artifact.rs:90-197 | a policy is captured if and only if it declares every pack and mount once and has them all, every body parses and the sizes are within their limits |
| `Artifact.RosterOrders` | src/cluster/artifact.rs:144-179 | distinct declarations matching the bodies list the packs in map order |
| `ArtifactVerify.ValidateManifest` | src/cluster/manifest.rs:161-229 | accepts exactly valid manifests; neither the running total nor the final sum can overflow |
| `ArtifactVerify.ManifestRoundTrip` | src/cluster/manifest.rs:141-159 | what is encoded is valid and decodes to itself |
| `ArtifactVerify.HashPinsManifest` | src/cluster/manifest.rs:126-139 | two valid manifests with one artifact hash are equal, unless the hash collides on their wire forms |
| `ArtifactVerify.Publish` | src/cluster/artifact.rs:199-240 | equals the publication function |
| `ArtifactVerify.ReadBodies` | src/cluster/artifact.rs:287-306 | succeeds exactly when every pack object is present, matching and text |
| `ArtifactVerify.ReadMounts` | src/cluster/artifact.rs:315-326 | sorted mounts, refused exactly on a duplicate |
| `ArtifactVerify.VerifyObjects` | src/cluster/artifact.rs:244-349 | equals the declarative verification |
| `ArtifactVerify.ObjectsHold` | src/cluster/artifact.rs:226-231 | even when bodies share one object every reference finds its own bytes |
| `ArtifactVerify.RoundTrip` | src/cluster/artifact.rs:90-349 | whatever is published decodes and verifies, and verification returns the policy without its node-local fields, even when packs share one object |
| `ArtifactIntegrity.PublishedExactly` | src/cluster/artifact.rs:199-240 | a capture is published if and only if lineage, revision and hash are well-formed, the epoch is positive, the profile names are valid and the whole fits its limits |
| `ArtifactIntegrity.AcceptedIsAttested` | src/cluster/manifest.rs:34-41 | accepted objects are exactly those the manifest cites, and each has the size and the digest it is cited with |
| `ArtifactIntegrity.AcceptedPolicy` | src/cluster/artifact.rs:244-349 | the accepted policy is the cited document, carries nothing node-local, names exactly the manifest's packs and mounts, and its hash and recount are those the manifest declares |
| `ArtifactIntegrity.WrongPolicyHashIsRefused` | src/cluster/artifact.rs:335-349 | an artifact whose declared policy hash is not that of its own policy and bodies is refused |
| `ArtifactIntegrity.AcceptedIsPublished` | src/cluster/artifact.rs:244-306 | under a published manifest nothing but the publication's own objects is accepted, given a digest that tells them apart |
| `ArtifactIntegrity.OnlyThePolicyIsAccepted` | src/cluster/artifact.rs:199-349 | verification under a published manifest returns the published policy without its node-local fields for exactly the published objects, and refuses any others |
| `Admission.CheckPacks` | src/cluster/admission.rs:81-97 | exactly the per-pack limits |
| `Admission.CheckProfiles` | src/cluster/admission.rs:99-106 | exactly the per-profile and total limits, overflow included |
| `Admission.Preflight` | src/cluster/admission.rs:74-108 | exactly the declared counters within the local limits |
| `Admission.DeclaredIsRecounted` | src/cluster/artifact.rs:327-336 | verification makes the declared counters those recounted from the bytes |
| `Admission.AcceptedFits` | src/cluster/admission.rs:39-108 | whatever the manifest declared, accepted bodies fit every list, file, rule, store, per-profile and total limit |
| `Admission.AcceptedExactlyIfFits` | src/cluster/admission.rs:39-108 | preflight accepts a verified artifact if and only if its bodies, counted afresh, fit every local limit, counter by counter |
| `Admission.VerifyForReceiver` | src/cluster/admission.rs:31-72 | accepts exactly valid limits, declared counters within them, a verified artifact and a valid policy |
| `RateLimit.ApiRateLimiter.constructor` | src/api/rate_limit.rs:56-61 | an empty limiter; zero disables it |
| `RateLimit.ApiRateLimiter.Check` | src/api/rate_limit.rs:71-107 | a disabled limiter admits and stores nothing; otherwise window and decision are the specified visit |
| `RateLimit.ApiRateLimiter.Cleanup` | src/api/rate_limit.rs:112-116 | drops exactly the windows that are over |
| `RateLimit.UnderTwiceTheLimit` | src/api/rate_limit.rs:71-107 | in every monotone run no half-open minute admits more than twice the limit less one for one address |
| `RateLimit.BoundIsReached` | src/api/rate_limit.rs:71-107 | for every positive limit that bound is reached |
| `RateLimit.LimitedIsEarned` | src/api/rate_limit.rs:71-107 | nobody is limited early: a refusal means the whole limit was admitted to the address in a minute not yet over |
| `RateLimit.SweepsChangeNothing` | src/api/rate_limit.rs:112-116 | cleanups, whenever they run, change no decision |
| `RateLimit.RetryReachesWindowEnd` | src/api/rate_limit.rs:90-93 | the wait is 1 to 60 whole seconds, reaches the window's end and never a full second beyond it (section 10.2.3 of RFC 9110) |
| `RateLimit.WaitingIsEnough` | src/api/rate_limit.rs:71-107 | in every run an address that waits out its Retry-After is admitted |
| `AuthLimiter.AuthRateLimiter.constructor` | src/auth/middleware.rs:81-87 | an empty table |
| `AuthLimiter.AuthRateLimiter.EvictOne` | src/auth/middleware.rs:103-133 | removes exactly the scan's victim |
| `AuthLimiter.AuthRateLimiter.IsLockedOut` | src/auth/middleware.rs:137-155 | answers by the active lockout and clears an expired one |
| `AuthLimiter.AuthRateLimiter.RecordFailure` | src/auth/middleware.rs:158-189 | makes room, counts, and locks from the tenth failure on |
| `AuthLimiter.AuthRateLimiter.RecordSuccess` | src/auth/middleware.rs:192-200 | forgets the address |
| `AuthLimiter.AuthRateLimiter.Cleanup` | src/auth/middleware.rs:218-226 | keeps exactly active lockouts and fresh counters |
| `AuthLimiter.AuthRateLimiter.Authenticate` | src/auth/middleware.rs:229-285 | the middleware's order of calls equals one step of the run |
| `AuthLimiter.LockoutEvictedExactly` | src/auth/middleware.rs:103-133 | an active lockout is evicted if and only if the first min(size, 32) entries of the iteration are all locked |
| `AuthLimiter.OldestMeans` | src/auth/middleware.rs:108-129 | the scan's candidate is the oldest of the visited entries, or of the unlocked ones |
| `AuthLimiter.LockoutsSurvive` | src/auth/middleware.rs:103-133 | whatever the iteration order, no lockout is evicted while fewer than min(size, 32) entries are locked |
| `AuthLimiter.InsertAtCapEvictsOne` | src/auth/middleware.rs:158-175 | an insert at the cap trades exactly one entry, the victim, for the newcomer |
| `AuthLimiter.RunKeeps` | src/auth/middleware.rs:158-189 | in every one-at-a-time run the table stays within the larger of cap and one, and no counter passes ten |
| `AuthLimiter.AnswersExactly` | src/auth/middleware.rs:229-285 | in every run an attempt is accepted if and only if its token is valid and its address is not locked out, and then its entry is gone; refused with a wait if and only if locked out; a missing token is refused without counting against or evicting anybody; a failure at room to spare touches nobody else |
| `AuthLimiter.CleanupDropsExactly` | src/auth/middleware.rs:218-226 | a cleanup drops exactly what is neither locked out nor a failure of the last twenty minutes |
| `AuthLimiter.VictimIsOldest` | src/auth/middleware.rs:103-133 | the victim is unlocked and no younger than any of the first eight unlocked entries among the first 32, if there are any |
| `AuthLimiter.CapHoldsExactly` | src/auth/middleware.rs:158-175 | every run stays within the cap if and only if the cap is at least one |
| `AuthLimiter.TenthFailureLocks` | src/auth/middleware.rs:158-226 | in every streak of an address, starting anywhere in a run without an entry and going on without success, eviction or a gap of twenty minutes, the tenth failure locks and no earlier one does, however cleanups and other addresses interleave |
| `AuthLimiter.TenthFailureRefuses` | src/auth/middleware.rs:137-226 | after such a tenth failure every attempt of the address is refused exactly until five minutes have passed, unless one eviction intervened |
| `AuthLimiter.LockoutHolds` | src/auth/middleware.rs:137-155 | one event ends an active lockout if and only if it is another address's failed insert at the cap that found the scanned entries all locked and this one the oldest |
| `AuthLimiter.LockoutHoldsUntilExpiry` | src/auth/middleware.rs:137-155 | over a run, from the state that holds a lockout on, the entry is kept and every attempt of the address is refused exactly until expiry, unless such an eviction intervened |
| `Csv.SplitCsv` | tools/oui_pack.rs:133-157 | the character loop equals the splitting function |
| `Csv.SplitInvertsPrint` | tools/oui_pack.rs:133-157 | splitting inverts the printing of section 2 of RFC 4180 for every nonempty row and every choice of quoting |
| `Utf8.ClampName` | tools/oui_pack.rs:176-186 | the encoding of the longest prefix of whole characters within 255 bytes (section 3 of RFC 3629) |
| `Utf8.FittingIsLongest` | tools/oui_pack.rs:176-186 | no longer prefix fits |
| `Utf8.DecodeInvertsEncode` | tools/oui_pack.rs:176-186 | decoding the bytes by section 3 of RFC 3629 gives back exactly the characters |
| `OuiPack.ParseAssignment` | tools/oui_pack.rs:159-170 | the first six bytes as three base-16 pairs, a leading plus sign in a pair accepted |
| `OuiRows.PrefixReadsBack` | tools/oui_pack.rs:159-170 | six hexadecimal digits in either case are read as the prefix they print, whatever follows or surrounds them in white space |
| `OuiRows.PrefixReadExactly` | tools/oui_pack.rs:159-170 | an assignment is read if and only if six bytes are there, each a hexadecimal digit or, first in its pair, a plus sign |
| `OuiPack.ParseCsv` | tools/oui_pack.rs:98-128 | exactly the accepted rows, in order |
| `OuiRows.PrintedRowIsTaken` | tools/oui_pack.rs:98-128 | a printed row, however quoted, is taken for exactly what it stands for: a large-block assignment with a readable prefix and a name; only a header line is skipped |
| `Text.LinesInvertJoin` | tools/oui_pack.rs:98-104 | splitting into lines gives back what was joined by line feeds, with or without carriage returns, a last line possibly unended |
| `Text.TrimMeans` | tools/oui_pack.rs:104-121 | trimming cuts exactly the white space at both ends |
| `OuiPack.TableIsFirstRows` | tools/oui_pack.rs:43-45 | sorting and deduplicating gives strictly ascending keys, each with the name of its first accepted row |
| `OuiIndex.PackStrings` | tools/oui_pack.rs:57-64 | length-prefixed names end to end, with their offsets |
| `OuiIndex.PackIndex` | tools/oui_pack.rs:66-72 | header and records as specified |
| `OuiIndex.NoCastTruncates` | tools/oui_pack.rs:57-72 | at most 2^24 records, so the count and every offset fit 32 bits and every length 8 |
| `OuiIndex.LexIsNumeric` | src/oui/mod.rs:122-126 | comparing prefix bytes compares the prefixes |
| `OuiIndex.Open` | src/oui/mod.rs:53-98 | accepts exactly a matching magic and size |
| `OuiIndex.FindOffset` | src/oui/mod.rs:117-134 | what it finds is in the file, and over a sorted file it agrees with a linear scan |
| `OuiIndex.Lookup` | src/oui/mod.rs:104-108 | over a sorted file the scanned record's name |
| `OuiIndex.PackedIsSorted` | tools/oui_pack.rs:66-72 | a packed index is strictly sorted |
| `OuiIndex.PackedScan` | src/oui/mod.rs:117-193 | scanning a packed file is looking up the rows |
| `OuiIndex.PackThenLookup` | tools/oui_pack.rs:43-72 | for every text and prefix the packed files answer with the first accepted row's name, clamped; nothing is written if and only if no row is accepted |

## Left out

- HTTP routing, listeners, TLS, the command line, logging and audit text: plumbing with shallow claims only.
- The job service behind the supervisor: its receipts arrive as step parameters; panics inside the blocking worker and lock poisoning are assumed absent.
- `recover` is taken to run before the loop or as the loop's own retry, as the daemon calls it; retry delays are not modelled.
- Profile resolution, plan paging and replay lookups of the job client: reads without protocol state.
- Owner, mode, inode and lock checks of the private store, and its open of an existing store without creation: operating-system metadata.
- Schema migration, explicit rollback, enrollment and legacy journals of the policy transaction: the artifact receiver never starts them.
- Rollback staging files of the policy transaction: a restored member takes a new identity where the code reuses a staged one.
- Members recorded as absent in a revision inventory: the candidate loops refuse them before the modelled part.
- Final checks of a load on an already settled node (local declarations, bundle without ledger): they change no state.
- Corpus installation and candidate compilation during an apply: their sources are outside this model.
- ArtifactReceiver.Receiver.Apply: the request key is assumed fresh, as its random attempt number makes it.
- ArtifactReceiver.Receiver.Preflight: lineage changes and local declarations, which only add refusals, are not modelled.
- Activation.NeverReactivated: covers attempts that run one after another; overlapping attempts, for which it fails, are settled exactly by ActivationRuns.ReactivatedExactly.
- Activation.Completion.Resume: likewise one attempt after another.
- PublicationStores.PublicationStore.Recover: one clock reading serves the whole recovery; orphan collection is not modelled.
- PublicationStores.PublicationStore.ReserveBound: object files are not modelled, only the state they belong to.
- Admission.VerifyForReceiver: the final schema validation is a flag, and the limits on compiled sizes, used only by the compiler, are omitted.
- ArtifactVerify.RoundTrip: assumes TOML, JSON and UTF-8 read back what they print, a digest that tells the bodies in play apart, and a policy hash that ignores node-local fields.
- Concurrent callers of the failure table may overshoot its cap for a moment; runs here are one at a time.
- The in-place library sort and deduplication of the packer are functions on sequences; MAC text parsing of the reader is not modelled.
- Waiting on blocking slots: a semaphore that only delays.
