# Storage lifecycle of an ADAMANT IPFS node, verified

This project models the storage lifecycle of one node and the protocols that tie
nodes together, and proves what they keep over every run.

- **One node.** `Records`, `Lifecycle` and `NodeState` give records, the predicates
  policy is decided from, and the net effect of every lifecycle operation on the slot
  (record and pin) of the CID it locks. `NodeStore` performs the operations one pin and
  one save at a time, with every failure mode of a save, and is proved against that
  specification. `UploadRoute` admits, undoes and settles multi-file requests.
  `NodeMachine` makes each critical section a step and proves the invariants, the
  stability of owned CIDs and exact undo over all interleavings. `EffectLaws` states what
  each operation promises in the fields of the record it leaves. `SharedStages` and
  `AbortMarkers` treat copies shared by several transactions and the memory of aborts.
- **Collection.** `GcPlan` is the planner, `GcRun` a run with arbitrary interference.
- **Several nodes.** `StrictUpload` is the two-phase protocol between a coordinator and
  its peers with lost messages, `StrictUploadRuns` two complete runs of it; `Placement`,
  `Handover` and `HandoverRuns` are rendezvous placement and the decisions to drop a copy.
- **Kernels.** `OperationLock`, `UploadSessions` and `UploadWindow` protect imported blocks
  until they are pinned; `PromiseQueues`, `CidLocks` and `LockRefinement` are the per-CID
  queues, their ordered acquisition and the link between them; `Intake` is the rolling
  budget; `RepairCycle` and `RepairDriver` walk and drive repair; `Framing` is the message
  framing.

A save is atomic and can work, fail without effect, or fail after it landed. Steps that
run under CID locks are atomic; everything else interleaves. Where the code does not meet
what its comments promise, the model follows the code, a lemma exhibits a failing input,
and an if-and-only-if states when the promise holds:

- `restoreReplicaStage` returns its fallback save without awaiting it, so the surrounding
  `catch` does not cover it, and a rescue undoes its pin but not a save that landed. These
  two uncovered writes (`NodeMachine.Breaks`) can leave a record without the pin it claims,
  on their own CID only; everything else holds without them being excluded
  (`NodeMachine.StepKeepsPin`).
- A late commit of a stage that lost its pin that way is acknowledged, and a peer answers
  `have` for a pin without a record; a strict upload counts both towards its quorum
  (`StrictUpload.VouchedIsTrue`, `StrictUploadRuns`).
- A repeated abort refreshes the expiry of its marker but not its place in the map, so it
  can be displaced by fewer newer markers than the cap (`AbortMarkers.KeptExactlyWithRoom`).
- A strict upload answers with success even when both the settlement mark and the removal
  of the token could not be written (`StrictUpload.SuccessMeansSettled`).
- A repair cycle whose passes all start with an empty list loses its cursor each time and
  never ends (`RepairCycle.EndsUnlessEveryStartIsEmpty`).
- A temporary upload may register over a pin without a record and let it expire, although a
  handover relied on that pin. A step costs a node its copy exactly when it is such an
  upload, a release or a handover (`Handover.StepKeepsCopy`, `Handover.CoreKeptExactlyWhenSpared`);
  `HandoverRuns` is a run that ends without any copy.
- The import lease is promised until a cleanup has finished, but a close that arrives during
  it gives the lease back (`UploadWindow.LeaseThroughCleanup`).

## Model

| member | source | states |
|---|---|---|
| `NodeMachine.StepKeepsInv` | src/storage/registry.ts:119-206 | Every step of the node (stages, commits, aborts, stores, confirmations, releases, collection, handover, rescue, uploads and their rollbacks), with every failure of a save, keeps: each record has `pinned == heldLocally`, expired records are unpinned, staged ones are temporary, held and carry a non-empty duplicate-free claim list |
| `NodeMachine.RunsKeepInv` | src/storage/registry.ts:371-402 | The same over every interleaving of critical sections, without any exclusion |
| `NodeMachine.StepKeepsPin` | src/storage/replicaStage.ts:408-456 | The pin a record claims stays real if and only if the step is not one of the two uncovered writes on that very CID |
| `NodeMachine.RunsKeepPin` | src/storage/gc.ts:364-412 | Over every run, the pin of a CID is real as long as no uncovered write hit that CID, whatever failed elsewhere |
| `NodeMachine.EmptyNodeInv` | src/storage/registry.ts:289-300 | An empty node satisfies both, so every history that starts there keeps them |
| `NodeMachine.EffectKeepsRecord` | src/storage/replicaStage.ts:221-498 | Whatever fails and however, an operation on a CID leaves a sound record behind |
| `NodeMachine.WithdrawalCanLoseThePin` | src/storage/replicaStage.ts:420-435 | Concrete witness: the fallback save of a withdrawn stage is returned without being awaited, so its failure leaves a record that claims a pin it lost |
| `NodeMachine.RescueCanClaimAMissingPin` | src/storage/service.ts:1007-1036 | Concrete witness: a rescue whose save landed but was reported as failed takes its pin back under a record that claims it |
| `NodeMachine.BackgroundKeepsConfirmed` | src/storage/gc.ts:336-419 | No stage, commit, abort, permanent store, collection, handover, rescue or repair step takes a record out of `confirmed` |
| `NodeMachine.BackgroundRunsKeepConfirmed` | src/storage/service.ts:1184-1275 | The same over whole runs of such steps, failing saves included |
| `NodeMachine.FailedOperationIsExactUndo` | src/storage/lifecycle.ts:52-92 | A stage, permanent store, confirmation or release answered with an error leaves the record it found, and the pin membership wherever the claimed pin was real, whether or not the failing save landed |
| `NodeMachine.FailedUploadIsExactUndo` | src/api/uploadRoute.ts:271-376 | A multi-file request that fails to be admitted leaves every record as it was, repeated CIDs included, and the slot exactly when it is untouched or its pin was real |
| `NodeMachine.OwnedSlotIsStable` | src/storage/registry.ts:635-648 | No step of anybody else adopts, releases, stages, collects or settles a pinned CID a running upload owns |
| `NodeMachine.OwnedSlotStableOverRun` | src/storage/registry.ts:635-692 | The same over whole runs, together with the baselines the request keeps, without any exclusion |
| `NodeMachine.RollbackIsExactUndo` | src/api/uploadRoute.ts:61-94 | Whatever runs between admission and rollback, every CID of a refused request ends with its former record up to revision, or its absence, and with its former pin membership if and only if the pin its record claimed was real; a lost one stays put back |
| `NodeMachine.StepKeepsTokens` | src/storage/admission.ts:38-110 | Every step keeps: a record is settled only once its request cannot roll it back, and no rollback brings back a record a running request owns |
| `NodeStore.NodeStore.Save` | src/storage/registry.ts:480-495 | Stamps a valid record with a fresh revision; an invalid one or one that fails before the write changes nothing; a failing write may still have landed |
| `NodeStore.NodeStore.RestoreStageWrite` | src/storage/replicaStage.ts:135-168 | Puts back the record read before, or its absence, and takes away only a pin this call created |
| `NodeStore.NodeStore.StageReplica` | src/storage/replicaStage.ts:221-344 | Step-by-step pin, save and compensation lead to exactly the specified slot and reply, for every failure mode |
| `NodeStore.NodeStore.JoinStage` | src/storage/replicaStage.ts:231-274 | Another transaction joins a stage; on failure the stage keeps its record and its pin. That its claim lasts until at least now plus its lifetime is `EffectLaws.StageGivesClaim` |
| `NodeStore.NodeStore.FirstStage` | src/storage/replicaStage.ts:278-344 | A first claim, or a stable copy when the CID was pinned or confirmed already; a failure restores both sides |
| `NodeStore.NodeStore.CommitReplica` | src/storage/replicaStage.ts:359-400 | A claim becomes durable for every transaction sharing it, only for its recorded origin; a repeated commit of a durable copy succeeds without a write |
| `NodeStore.NodeStore.RestoreReplicaStage` | src/storage/replicaStage.ts:408-456 | Withdraws a stage: removes a record it created, or restores the expired baseline, with compensation only for the removal |
| `NodeStore.NodeStore.AbortReplica` | src/storage/replicaStage.ts:463-498 | Removes one claim; the last one withdraws the stage; another peer's claim is refused untouched |
| `NodeStore.NodeStore.RestoreLifecycleBaseline` | src/storage/lifecycle.ts:52-92 | Restores a record and exactly the given pin membership |
| `NodeStore.NodeStore.RegisterPinned` | src/storage/lifecycle.ts:114-180 | Pin, register and, on any failure, the baseline again |
| `NodeStore.NodeStore.ConfirmStoredFile` | src/storage/lifecycle.ts:187-250 | Confirms a free record, adopts an unknown CID, refuses a busy one, and undoes itself on failure |
| `NodeStore.NodeStore.ReleaseStoredFile` | src/storage/lifecycle.ts:255-291 | Releases a free record, refuses a busy one, and undoes itself on failure. What a success leaves is `EffectLaws.ReleaseMeans` |
| `NodeStore.NodeStore.GcRepairPin` | src/storage/gc.ts:300-329 | Restores the missing pin of a held confirmed file, and nothing else |
| `NodeStore.NodeStore.GcRelease` | src/storage/gc.ts:364-412 | Releases a record only at the revision it was planned with, unconfirmed and not in flight; otherwise the node is unchanged |
| `NodeStore.NodeStore.DemoteCopy` | src/storage/service.ts:1243-1275 | Drops a held, free, confirmed copy at the selected revision; otherwise the node is unchanged |
| `NodeStore.NodeStore.RescueOrphan` | src/storage/service.ts:1007-1036 | Takes a released confirmed file back; otherwise the node is unchanged |
| `NodeStore.NodeStore.RollbackUpload` | src/storage/rollback.ts:27-50 | Restores one file of a refused request unless another lifecycle owns the CID by now |
| `Lifecycle.Register` | src/storage/registry.ts:624-692 | What a registration writes is valid, pinned, held, free of stages and carries the token of its own request |
| `Lifecycle.JoinedStageIsValid` | src/storage/replicaStage.ts:86-96 | A further claim keeps the claim list duplicate-free and every recorded origin a claimant |
| `Lifecycle.OneClaimLessIsValid` | src/storage/replicaStage.ts:483-496 | So does the withdrawal of one claim among several |
| `NodeState.MovesKeepsWellStored` | src/storage/registry.ts:480-495 | Every stored record keeps its durable shape and unissued revisions stay unused |
| `EffectLaws.ReleaseMeans` | src/storage/lifecycle.ts:255-291 | A release succeeds exactly for a known CID nobody works on whose save works; the file is then expired, unpinned, not held and nobody's, and otherwise unchanged |
| `EffectLaws.ReleasedStaysReleased` | src/storage/lifecycle.ts:255-291 | Over every run after it, no rescue, repair, handover, collection, commit, abort or rollback takes the file back: only an upload, stage, store or confirmation of it can |
| `EffectLaws.ConfirmMeans` | src/storage/lifecycle.ts:187-250 | A confirmation of a known CID succeeds exactly when nobody works on it and its save works; the file is then durable, answers `have`, keeps its first confirmation time and its content |
| `EffectLaws.ConfirmUnknownMeans` | src/storage/lifecycle.ts:187-215 | An unknown CID is confirmed only where adoption is asked for |
| `EffectLaws.RegisterWrites` | src/storage/registry.ts:624-660 | A registration writes exactly when no repair and no other running or unsettled upload works on the CID; a stage yields to an upload only |
| `EffectLaws.RegisterMeans` | src/storage/registry.ts:660-692 | Durable content stays durable and never shrinks; anything else is confirmed at once or, where confirmation is required, temporary until exactly now plus the configured time |
| `EffectLaws.RequestRegisters` | src/api/uploadRoute.ts:303-350 | However often a request names a CID, durable content stays durable and as old as it was, and anything else gets the lifetime of the request and the age of its first record |
| `EffectLaws.StoreMeans` | src/storage/lifecycle.ts:114-180 | A permanent store succeeds exactly for a free CID whose save works, and then answers `have`; it keeps a stage in the way |
| `EffectLaws.ProtectedBytesMeans` | src/storage/registry.ts:709-717 | The bytes a record protects are the measured ones, or the larger of its two sizes |
| `EffectLaws.StageSucceeds` | src/storage/replicaStage.ts:227-300 | A stage succeeds exactly when no marker rejects it, no other peer recorded its transaction, no unrelated temporary or unsettled record is in the way, and its save works; it prepares a copy exactly when there is a stage to join or nothing durable or pinned to rely on |
| `EffectLaws.StageGivesClaim` | src/storage/replicaStage.ts:231-344 | A prepared copy, first, joined or repeated, carries a claim of its own transaction and recorded origin until at least now plus the lifetime asked for; every other claim keeps its place and origin |
| `EffectLaws.StageRecords` | src/storage/replicaStage.ts:171-344 | What a first stage or a stable copy records: measured sizes that never shrink, name, age and replicas kept, and the baseline to fall back to |
| `EffectLaws.JoinRecords` | src/storage/replicaStage.ts:231-274 | Joining changes nothing but claims and expiry |
| `EffectLaws.CommitMeans` | src/storage/replicaStage.ts:359-400 | A commit succeeds exactly for a claim its peer may settle whose save works, or for a copy that is durable already; the written one leaves a durable record |
| `EffectLaws.AbortMeans` | src/storage/replicaStage.ts:463-498 | An abort takes exactly its own claim; the last one takes the pin and the record the stage created, or falls back to the expired record |
| `EffectLaws.GcReleaseMeans` | src/storage/gc.ts:364-412 | A collection releases exactly what is at its planned revision, not durable and in no upload's hands |
| `EffectLaws.DemoteMeans` | src/storage/service.ts:1243-1275 | A handover drops exactly a free, held, durable copy at its revision, and leaves a durable record without a copy |
| `EffectLaws.RescueMeans` | src/storage/service.ts:1007-1036 | A rescue takes back exactly a durable file this node does not hold, at its revision, and changes nothing else |
| `EffectLaws.RepairMeans` | src/storage/gc.ts:300-329 | A pin is repaired exactly for a held durable file without a direct or indirect pin whose blocks are local |
| `EffectLaws.RollbackMeans` | src/storage/rollback.ts:27-50 | A rollback touches only what the request still owns: the former record, and no pin the request made unless that record claims it |
| `EffectLaws.SettleMeans` | src/api/uploadRoute.ts:105-180 | A settled request has its reported replicas and, where the write worked, its mark, and no other field changed |
| `EffectLaws.BeginRepairMeans` | src/storage/repairClaim.ts:11-28 | A repair claim is taken exactly on a durable held file at its revision that no upload or repair works on |
| `EffectLaws.RecordsFollowRules` | src/storage/registry.ts:119-206 | Over every run each stored record follows the rules of the registry, field by field |
| `UploadRoute.AdmitPart` | src/api/uploadRoute.ts:303-350 | One file is pinned and registered exactly when its registration is accepted and written, and otherwise its CID is back at its baseline; registration refuses CIDs under repair or owned by a running upload |
| `UploadRoute.AdmitParts` | src/api/uploadRoute.ts:271-376 | Every file of a request is owned and recorded once with its true baseline exactly when each registration in turn is accepted and written; the records are then the registrations applied one after the other. Otherwise every attempted CID is undone |
| `UploadRoute.RollbackAll` | src/api/uploadRoute.ts:61-94 | Undoes the recorded baselines newest first, touching only CIDs the request still owns |
| `UploadRoute.UndoFailedPart` | src/api/uploadRoute.ts:276-300 | After one part failed, all earlier parts are back at their baselines |
| `UploadRoute.FinalizeAdmitted` | src/api/uploadRoute.ts:105-180 | Exactly when the decision is refused, rolled back or settled, and the whole node state in each case |
| `UploadRoute.WriteReplicas` | src/api/uploadRoute.ts:129-140 | Replica lists are written with the token retained; it succeeds exactly when every write did |
| `UploadRoute.MarkSettled` | src/api/uploadRoute.ts:163-176 | Settlement marks are written for all CIDs; a failing one is skipped and costs only its own mark |
| `UploadRoute.ClearSettledAdmissions` | src/api/uploadRoute.ts:189-232 | Tokens are dropped and verified replicas stored; it succeeds exactly when every CID still carries the token |
| `SharedStages.ClaimProtectsCopy` | src/storage/replicaStage.ts:221-344 | Over every history of stages, commits, aborts, expiries, stores, confirmations and repairs, each save failing in any way, a claim neither aborted by its own peer nor expired keeps the copy pinned: the claim is still recorded, or the copy is durable |
| `SharedStages.PreparedCopyIsProtected` | src/storage/replicaStage.ts:221-344 | From the stage call on, first, joined or repeated: unless its own peer aborts or a collection is planned after the whole lifetime it asked for, the copy stays pinned and claimed for that transaction, or is durable, over every history |
| `SharedStages.CommitIsFinal` | src/storage/replicaStage.ts:359-400 | The first commit that is written, even one reported as failed, settles all sharing transactions: no later event or failure undoes it and every later commit is answered with success |
| `SharedStages.ClaimStep` | src/storage/replicaStage.ts:98-108 | One step of the claim argument, for every failure: only the claim's own peer or expiry can end it |
| `SharedStages.DurableStep` | src/storage/replicaStage.ts:359-385 | No event of any transaction takes a durable copy away, whatever fails |
| `SharedStages.LastAbortRestores` | src/storage/replicaStage.ts:408-498 | Any history of stages and aborts, with failing saves, ends without a claim exactly when it is back where it began: the created record is gone, or the expired baseline has its state, expiry, confirmation time and missing pin again; a remaining stage misses its pin only if the fallback write of a last abort failed |
| `SharedStages.RemembersBaseline` | src/storage/replicaStage.ts:300-344 | Every stage or abort keeps what the last abort has to restore, and loses the pin exactly at the uncovered fallback write |
| `SharedStages.JoiningRestoresPin` | src/storage/replicaStage.ts:231-274 | Another transaction that joins a stage without its pin puts the pin back |
| `SharedStages.OnlyTheOriginSettles` | src/storage/replicaStage.ts:98-108 | A commit or abort by a peer other than the recorded origin is refused and changes nothing, whatever the store does |
| `SharedStages.StoreAckIsDurable` | src/storage/service.ts:605-636 | A permanent store is acknowledged only for a durable copy without a stage; a stage in the way is kept as it is |
| `AbortMarkers.AbortTable.PruneAbortTombstones` | src/storage/replicaStage.ts:37-51 | In place: expired markers go, then the oldest beyond the cap |
| `AbortMarkers.AbortTable.RememberAbort` | src/storage/replicaStage.ts:53-63 | In place: prune, write (a known key keeps its position), prune again |
| `AbortMarkers.AbortTable.CheckAborted` | src/storage/replicaStage.ts:65-84 | Answers whether a stage request is rejected, pruning as it looks |
| `AbortMarkers.MarkerRejectsStage` | src/storage/replicaStage.ts:227-229 | While a marker is unexpired and fewer newer markers than the cap were written, no stage request of its CID, transaction and peer succeeds, over every sequence of aborts and checks |
| `AbortMarkers.WrittenMarkerSurvives` | src/storage/replicaStage.ts:53-63 | An unexpired marker survives its own pruning, and a first abort is the newest entry |
| `AbortMarkers.TableIsBounded` | src/storage/replicaStage.ts:37-51 | The table never exceeds its cap after pruning |
| `AbortMarkers.WasAbortedExactly` | src/storage/replicaStage.ts:65-84 | A stage is rejected exactly when the table has an unexpired marker of its CID and transaction, for its peer or for none in particular, with fewer than 10000 unexpired ones behind it |
| `AbortMarkers.OtherPeersNeverReject` | src/storage/replicaStage.ts:65-84 | No sequence of other peers' aborts rejects the origin's stage |
| `AbortMarkers.RepeatedAbortIsDisplacedByOne` | src/storage/replicaStage.ts:53-63 | A repeated abort keeps its place in the map, so one further abort can displace it |
| `AbortMarkers.KeptExactlyWithRoom` | src/storage/replicaStage.ts:37-63 | Over any traffic of aborts and checks, with repeated keys and expiring markers, an unexpired marker keeps its entry if and only if every abort that adds a live marker finds fewer live markers behind that entry than the cap has room for |
| `AbortMarkers.KeptExactlyWhileRoom` | src/storage/replicaStage.ts:37-63 | The same by a count that never looks at the table, as long as no marker ahead of the entry is written again |
| `AbortMarkers.DisplacedExactlyWhenFull` | src/storage/replicaStage.ts:37-51 | For aborts of new transactions, each at its own time and with its own expiry, a marker is displaced exactly when the markers behind its entry, old and new, fill the table |
| `OperationLock.StorageOperationLock.Acquire` | src/storage/operationLock.ts:45-66 | Enters at once exactly when nobody is ahead and the mode is compatible, otherwise queues |
| `OperationLock.StorageOperationLock.Release` | src/storage/operationLock.ts:99-119 | Gives the lease back and drains; a second release changes nothing |
| `OperationLock.StorageOperationLock.Drain` | src/storage/operationLock.ts:121-146 | The drain loop admits one writer or the run of readers at the head |
| `OperationLock.EveryStateIsFair` | src/storage/operationLock.ts:45-146 | In every reachable state readers counts the unreleased shared leases, a writer is alone, an unheld lock has no queue, a queue without a writer is headed by an exclusive waiter behind live readers, and grants are a prefix of arrivals |
| `OperationLock.ReleaseGivesBack` | src/storage/operationLock.ts:99-119 | A release returns its own lease, grants only waiting ones, and leaves every other lease alone |
| `OperationLock.AcquireArrives` | src/storage/operationLock.ts:45-66 | A newcomer changes nobody's lease and joins the history last |
| `OperationLock.WriterIsAlone` | src/storage/operationLock.ts:57-66 | The holder of the exclusive lease is the only holder of any lease |
| `UploadWindow.StepKeepsInv` | src/middleware/uploadAdmission.ts:72-178 | Every event of every request keeps each lease where its phase says it is |
| `UploadWindow.EveryStateInv` | src/middleware/uploadAdmission.ts:72-178 | The same in every reachable state |
| `UploadWindow.WindowIsProtected` | src/storage/gc.ts:451-455 | In every interleaving an unsettled session holds its one shared lease and no block deletion runs; a request that is gone or settled has given it back |
| `UploadWindow.OpensExactly` | src/middleware/uploadAdmission.ts:125-165 | A session is opened exactly when the free space of a request still connected was found to be enough |
| `UploadWindow.SettlesExactly` | src/storage/uploadSession.ts:217-288 | It is settled exactly by a commit, a cleanup, or a close before a handler claimed it |
| `UploadWindow.EndsExactly` | src/middleware/uploadAdmission.ts:72-104 | A settled session only finishes its cleanup; a connection ends exactly by its close or by a refusal |
| `UploadWindow.LeaseReturnsOnce` | src/middleware/uploadAdmission.ts:72-90 | A lease given back stays given back, and giving it back again has no effect |
| `UploadWindow.LeaseThroughCleanup` | src/middleware/uploadAdmission.ts:85-116 | A cleanup that begins with the lease keeps it through its deletions if and only if no close arrives meanwhile, over every continuation |
| `UploadWindow.CleanupCanLoseItsLease` | src/middleware/uploadAdmission.ts:85-104 | Concrete sequence: a handler fails and cleans up, and the close gives the lease back before the deletions are over |
| `UploadSessions.UploadSessions.Retain` | src/storage/uploadSession.ts:66-69 | A block is counted once for each session that references it, before it is written |
| `UploadSessions.UploadSessions.RecordStored` | src/storage/uploadSession.ts:73-75 | After the write, a session remembers the blocks that did not exist when it asked |
| `UploadSessions.UploadSessions.Claim` | src/storage/uploadSession.ts:217-224 | A session can be claimed exactly while it is not settled |
| `UploadSessions.UploadSessions.ReleaseAll` | src/storage/uploadSession.ts:137-148 | Drops every reference of a session and names exactly the blocks nobody references any more |
| `UploadSessions.UploadSessions.Commit` | src/storage/uploadSession.ts:241-252 | Settles once, keeps what was written and drops the references |
| `UploadSessions.UploadSessions.BeginCleanup` | src/storage/uploadSession.ts:278-288 | Settles once; only blocks the session created and nobody references become candidates for deletion |
| `UploadSessions.UploadSessions.CleanupIfUnclaimed` | src/storage/uploadSession.ts:260-266 | A disconnect does nothing to a settled or claimed session, and cleans up any other |
| `UploadSessions.UploadSessions.DeleteIfUnused` | src/storage/uploadSession.ts:297-307 | A block is deleted only if an earlier answer said it is unpinned and, at that moment, it is in nobody's upload |
| `UploadSessions.CountsFollow` | src/storage/uploadSession.ts:16-31 | Retaining or releasing one reference keeps all counts equal to the number of referencing sessions |
| `CidLocks.StepKeepsInv` | src/storage/registry.ts:331-402 | Every step of any number of multi-CID requests keeps the queues and the held prefixes consistent |
| `CidLocks.EveryStateInv` | src/storage/registry.ts:331-402 | The same in every reachable state |
| `PromiseQueues.PromiseQueues.Enter` | src/storage/registry.ts:331-350 | A call that chains on the promise in the map joins the end of its CID's queue and no other |
| `PromiseQueues.PromiseQueues.Settle` | src/storage/registry.ts:343-352 | Only the call in front can settle, and the next one moves up |
| `PromiseQueues.PromiseQueues.Cleanup` | src/storage/registry.ts:353-358 | Deleting the entry only while it is still its own changes no queue |
| `PromiseQueues.PromiseQueues.RunsInOrder` | src/storage/registry.ts:341-352 | Of all calls for a CID exactly the one in front may run: one at a time, first come first served |
| `PromiseQueues.PromiseQueues.NothingIsLeft` | src/storage/registry.ts:354-358 | Once every call has cleaned up, the map is empty |
| `CidLocks.MutualExclusion` | src/storage/registry.ts:371-402 | Two multi-CID requests never hold the same CID |
| `CidLocks.FirstComeFirstServed` | src/storage/registry.ts:371-402 | One step keeps the order of a queue, and nobody behind another request is at its front |
| `CidLocks.ServedInOrder` | src/storage/registry.ts:371-402 | Over every run a request that waits behind another one stays behind it until that one leaves |
| `CidLocks.FrontComesAfter` | src/storage/registry.ts:371-402 | It gets to the front only after the other one left |
| `LockRefinement.Registry.Submit` | src/storage/registry.ts:371-402 | A request that enters on promises is the same step on the queues of `CidLocks` |
| `LockRefinement.Registry.Advance` | src/storage/registry.ts:384-400 | Whoever's promise lets it run is at the front there, and moves on as there |
| `LockRefinement.Registry.Unlock` | src/storage/registry.ts:343-358 | The holder's call is the one that runs, and its settlement is the unlock |
| `CidLocks.SomebodyCanMove` | src/storage/registry.ts:371-402 | While a request is unfinished some request can take a step: no deadlock over any CID sets |
| `CidLocks.SomebodyWorks` | src/storage/registry.ts:371-402 | Once nothing is left to hand over, some request is running its work |
| `Placement.ComputeCopiesForAge` | src/storage/placement.ts:26-39 | The loop finds the last tier a file of this age has reached |
| `Placement.CopiesOfReachedTier` | src/storage/placement.ts:26-39 | A file is asked for as many copies as the last tier its age has reached, one without tiers |
| `Placement.AgeAsksForLess` | src/storage/placement.ts:26-39 | Configured tiers never ask for more copies of an older file |
| `Placement.HoldersAreTheBest` | src/storage/placement.ts:46-117 | The holders are as many distinct nodes as the age asks for when the network has that many, and everybody otherwise; each of them has a higher score than each node that is none |
| `Placement.PlacementMeans` | src/storage/placement.ts:109-130 | Copy counts, own membership, the small-network flag and the peers to ask, in terms of the holders and the known nodes |
| `Placement.MayDemoteExactly` | src/storage/placement.ts:143-145 | A node may drop its copy exactly when at least as many others as the age asks for rank above it |
| `Placement.FirstPlaces` | src/storage/placement.ts:66-84 | The first places of the ranking belong to the peers with fewer peers above them |
| `Placement.RankingRanks` | src/storage/placement.ts:66-84 | The ranking is a permutation of the peers in strictly descending order of score, equal scores by id |
| `Placement.RankingIsUnique` | src/storage/placement.ts:66-84 | A set of peers has exactly one ranking |
| `Placement.RankingDependsOnSet` | src/storage/placement.ts:66-84 | Neither the order of the list nor the computing node matters |
| `Placement.HoldersAgree` | src/storage/placement.ts:109-130 | Nodes with the same membership name the same holders, and for every age a prefix of one ranking; how many and which is `Placement.HoldersAreTheBest` |
| `Placement.LeavingKeepsOrder` | src/storage/placement.ts:66-84 | Removing or adding a node keeps the relative order of the rest |
| `Placement.LeavingSwapsOneHolder` | src/storage/placement.ts:66-130 | With the copy count unchanged, the holder set changes by at most one swap, and by which |
| `Placement.RetrievalReachesHolders` | src/storage/retrieval.ts:43-62 | Retrieval targets contain every remote holder for a file of any age |
| `Placement.RetrievalAsksExactly` | src/storage/retrieval.ts:43-65 | Exactly the peers within two places of some tier's holders are asked, and everybody without replication |
| `Placement.DistinctPeers` | src/storage/replication.ts:156-166 | One entry for each remote identity, the first configured one, and never this node |
| `Handover.CoreNeverDemotes` | src/storage/placement.ts:109-145 | Whatever age a node believes in, one that may demote is outside the smallest tier's holders and has to ask all of them |
| `Handover.HaveMeansKeeps` | src/storage/service.ts:693-710 | A node that answers `have` keeps its copy, and would after the rollback of any upload still running |
| `Handover.StepKeepsCopy` | src/storage/service.ts:1207-1275 | It goes on keeping it through any step, failing saves included, if and only if the step does not release it, hand it over, or let a temporary upload adopt a pin without a record, each decided from what the step finds |
| `Handover.CoreKeptExactlyWhenSpared` | src/storage/service.ts:1207-1275 | Once a copy was dropped, the core keeps its own through a step if and only if the step does not make a core node give up its copy outside handover |
| `HandoverRuns.BarePinIsLost` | src/storage/service.ts:693-700 | Concrete run of two nodes from a sound start: a bare pin answers the probe, the copy is dropped, a temporary upload adopts the pin, settles and is collected; no copy is left, and that upload is the only step that does not spare the core |
| `Handover.ClusterStepKeepsInv` | src/storage/service.ts:1207-1275 | Probes, drops and every other step that spares the core keep: whoever confirmed still keeps its copy, and after a drop the whole core does |
| `Handover.HandoverKeepsCore` | src/storage/service.ts:1207-1275 | Over every interleaving on any number of nodes whose core is spared: for every number of copies that each tier asks for and the network has, the nodes with fewer nodes above them never hand over, and once any copy was dropped all of them, so at least that many, still hold the file |
| `Handover.SomebodyKeepsIt` | src/storage/service.ts:1207-1275 | After a drop somebody still holds the file, whatever the tiers |
| `GcPlan.PlanGarbageCollection` | src/storage/gc.ts:75-162 | The evicted list is the shortest oldest-first prefix of eligible records that clears the watermark and the reserve deficit, or all of them; expired and reclaimable bytes are counted first. In record fields: `GcPlan.ExpiredExactly`, `GcPlan.EvictsUntilRelieved`, `GcPlan.EvictsNoMore` |
| `GcPlan.ExpiredExactly` | src/storage/gc.ts:79-83 | Whatever the watermarks, a record is released by age exactly when it is expired, or temporary and past its time, and no upload owns it |
| `GcPlan.CollectsExactly` | src/storage/gc.ts:105-117 | A run collects exactly above the high watermark or below the disk reserve, and for which reason |
| `GcPlan.EvictsUntilRelieved` | src/storage/gc.ts:118-150 | Eviction leaves an unexpired temporary record in nobody's transaction only once the store is back under the low watermark and a quarter above the reserve |
| `GcPlan.EvictsNoMore` | src/storage/gc.ts:118-150 | It takes only such records, and each one only while space was still short without it |
| `GcPlan.EstimateIsFreed` | src/storage/gc.ts:93-161 | The announced size is the store minus what is reclaimable, what expired with its pin and what is evicted, never below zero |
| `GcPlan.BytesAdd` | src/storage/registry.ts:709-717 | Releasing one more file counts the bytes it protects |
| `GcPlan.DiscountExpired` | src/storage/gc.ts:93-100 | Only pinned expired records reduce the estimate beyond what is reclaimable already |
| `GcPlan.Evict` | src/storage/gc.ts:130-150 | Each eviction was still needed, and afterwards no deficit or no candidate is left |
| `GcPlan.SelectionIsSafe` | src/storage/gc.ts:79-87 | Confirmed files, in-flight uploads and live stages are never selected |
| `GcPlan.PlanIsAPartition` | src/storage/gc.ts:152-161 | Expired, evicted and retained partition the records |
| `GcPlan.EvictionIsOldestFirst` | src/storage/gc.ts:134-150 | No evictable record survives a younger one that was evicted |
| `GcRun.GcStepKeepsInv` | src/storage/gc.ts:239-497 | With arbitrary node steps in between, uncovered writes included, entries with an old stamp are the planned ones and released stamps are this run's own |
| `GcRun.RunsKeepInv` | src/storage/gc.ts:239-497 | The same over whole runs, without any exclusion |
| `GcRun.BeginsWithInv` | src/storage/gc.ts:239-290 | A run that starts from a plan, with every held confirmed file of it still to be checked, satisfies the invariant |
| `GcRun.ReleaseOnlyPlanned` | src/storage/gc.ts:364-412 | A release changes a slot only if the record is, field by field, the one the plan selected |
| `GcRun.ForgetOnlyOwnWrites` | src/storage/gc.ts:474-486 | Cleanup removes only a record still at the stamp this run wrote, expired and unpinned |
| `GcRun.GuardOnlyProtects` | src/storage/gc.ts:286-335 | A check never takes a pin away and touches only its own file, and that one only if its pin was lost |
| `GcRun.GuardDecides` | src/storage/gc.ts:300-335 | A check fails exactly when a held durable file has no pin of its own or another DAG's and its blocks are missing or the repair could not be written; one that succeeds leaves the file protected, with a lost pin back under its record |
| `GcRun.CheckedBeforeTaking` | src/storage/gc.ts:286-355 | Nothing is released, deleted or forgotten before every durable file held at planning time was checked and found or made protected, or was no longer held |
| `GcRun.ChecksCanFail` | src/storage/gc.ts:332-335 | Concrete witness: a run that starts from a plan and whose check fails, on a file a failed rescue left without its pin |
| `GcRun.UnprotectedReleasesNothing` | src/storage/gc.ts:341-355 | After one failed check, or in a dry run, nothing is unpinned, deleted or forgotten for the rest of the run |
| `GcRun.DeletesOnlyWhenShort` | src/storage/gc.ts:424-455 | Blocks are deleted only on demand, above the high watermark or below the disk reserve |
| `GcRun.GcLeavesForeignAlone` | src/storage/gc.ts:364-412 | No step of the collection touches the record or the pin of an entry somebody else wrote after the plan with its pin |
| `GcRun.ReuploadSurvives` | src/storage/gc.ts:466-486 | A record written by a request in any phase of a run keeps its entry, revision included, and its pin to the end of the run |
| `StrictUpload.QuorumIsReachable` | src/storage/replication.ts:145-147 | The required acknowledgements never exceed the copies that are asked for |
| `StrictUpload.RequiredAcksMeans` | src/storage/replication.ts:145-147 | The required number is the configured quorum, or the number of designated holders where that is less, and at least one; it is the configured one whenever age and network offer as many copies |
| `StrictUpload.DecidesExactly` | src/storage/replication.ts:280-296 | Once every peer has answered, the request goes on exactly when every file was taken by the configured number of nodes or by everybody designated |
| `StrictUpload.SucceedsExactly` | src/storage/service.ts:187-246 | Once every commit is over, the answer is success exactly when every file has that many permanent copies under distinct names and every record still carries the token |
| `StrictUpload.StageNotedMeans` | src/storage/service.ts:334-443 | A copy counts as taken when the peer said so, and as unclaimed only on the word of the peer: it refused outright or has the file for good |
| `StrictUpload.WorldStep` | src/api/uploadRoute.ts:418-540 | Every message, loss, local step and peer step, failing saves and uncovered writes included, keeps the protocol invariant |
| `StrictUpload.ClaimsStep` | src/storage/service.ts:398-443 | No peer ever holds a claim of the request that the coordinator does not report as staged, lost acknowledgements, late messages and peers' own rollbacks included |
| `StrictUpload.VouchedIsTrue` | src/storage/service.ts:187-235 | When the coordinator begins to count a copy, the peer holds it confirmed, pinned, settled and unstaged if and only if the answer met a pinned stage or, for `have`, a record; a counted commit always leaves the record |
| `StrictUpload.CommitAnswerIsDurable` | src/storage/replicaStage.ts:359-400 | An acknowledged commit makes the copy durable exactly when the pin was still there |
| `StrictUpload.CommittedCopyIsDurable` | src/storage/service.ts:187-235 | A counted commit is durable whenever no uncovered write of that file hit that peer since the request began |
| `StrictUpload.SuccessMeansQuorum` | src/storage/service.ts:187-246 | A success answer implies, for every CID, the configured quorum of copies, this node included, or as many as age and network allow: distinct other peers whose copy began to count at some step, each durable there if and only if the answer met a pinned stage or a record |
| `StrictUpload.SuccessMeansDurable` | src/storage/service.ts:187-246 | When no uncovered write hit the file on a peer asked for it and none had a pin without a record, success means that the configured quorum, or as many as age and network allow, was made: each peer behind it held the file confirmed, pinned, settled and unstaged at a moment of the request |
| `StrictUploadRuns.UnregisteredPinCounts` | src/storage/service.ts:693-700 | Concrete run from admission to success whose one required copy is a pin without a record, never durable |
| `StrictUploadRuns.LostPinCounts` | src/storage/replicaStage.ts:420-435 | Concrete run from admission to success whose one required copy is a committed stage that had lost its pin, never durable |
| `StrictUpload.SuccessMeansSettled` | src/api/uploadRoute.ts:492-540 | After a success answer every local file is confirmed, held and pinned, and settled exactly when its settlement mark or the removal of its token was written |
| `StrictUpload.SuccessCanBeUnsettled` | src/api/uploadRoute.ts:165-176 | Concrete witness: when both of those writes fail, the answer is success and the record is unsettled |
| `StrictUpload.SettlementIsFinal` | src/api/uploadRoute.ts:462-540 | Once this node settled, no later step of any run rolls back or withdraws a copy |
| `StrictUpload.QuorumMissRestores` | src/api/uploadRoute.ts:424-460 | A quorum-miss answer implies the local baseline, exactly wherever its pin was real, an acknowledged abort from every peer that was or may have been staged, and no claim anywhere whose withdrawal was not acknowledged |
| `StrictUpload.QuorumMissMeansUndone` | src/api/uploadRoute.ts:424-460 | The same from admission to answer over any run, each such peer having held no claim of the request right after its abort |
| `StrictUpload.AbortedIsWithdrawn` | src/storage/service.ts:248-266 | An acknowledged abort leaves no claim of the request on that peer |
| `StrictUpload.StrictRegistrationIsConfirmed` | src/api/uploadRoute.ts:378-390 | Without a confirmation step every registration is confirmed |
| `Intake.IntakeBudget.Reserve` | src/storage/intakeBudget.ts:144-172 | Granted exactly when the history of charges leaves room in both budgets and both measures; keeps the books and the limits, and the peer map within the request limit |
| `Intake.IntakeBudget.Settle` | src/storage/intakeBudget.ts:176-197 | Corrects a reservation once, in both budgets; limits survive every transfer that cost no more than it reserved |
| `Intake.Totals` | src/storage/intakeBudget.ts:75-92 | The live buckets and their sums |
| `Intake.ChargeBucket` | src/storage/intakeBudget.ts:98-112 | Charges the bucket of now, creating it when missing |
| `Intake.DropIdlePeers` | src/storage/intakeBudget.ts:165-171 | Forgets exactly the peers with nothing live |
| `Intake.TrailingHourIsBounded` | src/storage/intakeBudget.ts:149-158 | In every trailing hour, whenever it ends, each peer and the whole node stay within their byte and request limits |
| `Intake.HourInFigures` | src/storage/intakeBudget.ts:23-53 | No hour brings more than 4 GiB or 500 requests from a peer, or 16 GiB or 5000 requests in all |
| `Intake.FitsExactly` | src/storage/intakeBudget.ts:144-160 | A reservation is granted exactly when the charges of the ten-minute buckets that ended less than an hour ago leave room under those four figures |
| `Intake.SumMeans` | src/storage/intakeBudget.ts:75-92 | What the sums add up: bytes charged, and requests |
| `Intake.CountedForAnHour` | src/storage/intakeBudget.ts:65-79 | A charge counts for at least 60 and at most 70 minutes |
| `Intake.AtMostSevenLive` | src/storage/intakeBudget.ts:75-79 | At most seven buckets of a spender are live |
| `Intake.TotalIsSumOverPeers` | src/storage/intakeBudget.ts:119-120 | The live total equals the sum over the peers of the map |
| `Intake.ClampIsIdle` | src/storage/intakeBudget.ts:184-195 | The clamp at zero never changes a settled bucket |
| `Intake.LiveKeepsAccounts` | src/storage/intakeBudget.ts:75-92 | Dropping buckets out of the window loses no charge that still counts, and live sums equal the counted history |
| `Intake.KeptPeersAreFew` | src/storage/intakeBudget.ts:165-171 | After pruning, the peer map is no larger than the requests counted |
| `RepairCycle.RepairCycles.NextBatch` | src/storage/repairCycle.ts:108-157 | The cycle in memory and the batch after a pass, for every scan and cursor |
| `RepairCycle.CandidatesExactly` | src/storage/repairCycle.ts:62-73 | Candidates are the durable files no stage, upload or repair works on |
| `RepairCycle.WalkExactly` | src/storage/repairCycle.ts:108-120 | A pass walks the list in memory while there is one and a cursor, and otherwise a new scan from right above the cursor |
| `RepairCycle.BatchExactly` | src/storage/repairCycle.ts:118-130 | It hands out the next fifty CIDs, or what is left |
| `RepairCycle.PassEndsExactly` | src/storage/repairCycle.ts:120-157 | It ends its cycle exactly when the list is exhausted and nothing arrived, or three rounds were appended already, and counts what then arrived as uncovered |
| `RepairCycle.PassGoesOnExactly` | src/storage/repairCycle.ts:120-157 | Otherwise it moves on by what it took, and appends exactly what arrived once the list is exhausted |
| `RepairCycle.ResumeSplitsAtCursor` | src/storage/repairCycle.ts:75-89 | A rebuilt list resumes right above the cursor, whether or not the cursor is still a candidate |
| `RepairCycle.PassMakesProgress` | src/storage/repairCycle.ts:116-152 | A pass that does not end the cycle decreases the pair (rounds left, CIDs not handed out) |
| `RepairCycle.CycleEnds` | src/storage/repairCycle.ts:108-157 | However many records arrive, a cycle whose cursor is threaded through ends |
| `RepairCycle.CursorIsLostOnlyAtAnEmptyStart` | src/storage/repairCycle.ts:142-150 | A pass that does not end its cycle returns no cursor exactly when it began with no cursor, an empty list, and arrivals |
| `RepairCycle.EndsUnlessEveryStartIsEmpty` | src/storage/repairCycle.ts:108-157 | An endless sequence of passes ends a cycle if and only if some pass does not start with an empty list that fills before its closing scan |
| `RepairCycle.EmptyStartsNeverEnd` | src/storage/repairCycle.ts:112-116 | Concrete endless run of such passes: each starts the cycle over |
| `RepairCycle.StepKeepsInv` | src/replication.cron.ts:98-150 | Passes, failed passes, restarts and membership changes keep: what an uninterrupted cycle handed out is the prefix of its list |
| `RepairCycle.PublishedMeansCovered` | src/replication.cron.ts:115-120 | A pass publishes evidence exactly when it ends a cycle never rebuilt from a cursor that handed out every candidate of its closing scan |
| `RepairCycle.EvidenceIsCoverage` | src/replication.cron.ts:98-150 | Over every run, new evidence of a completed cycle comes from such a pass |
| `RepairCycle.RepairJob.Begin` | src/replication.cron.ts:92-97 | A second pass is refused while one is running |
| `RepairCycle.RepairJob.Finish` | src/replication.cron.ts:98-150 | The evidence after a pass, published, kept or carried on; unchanged when the pass throws |
| `RepairCycle.CursorFollowsPass` | src/replication.cron.ts:98-150 | The next pass resumes where this one stopped, or from the start after a completed cycle |
| `RepairCycle.EvidenceCountsPasses` | src/replication.cron.ts:102-140 | Counters are sums over the open cycle, the last completed cycle is the last whose every pass proved its coverage, and unsuccessful cycles are the published ones with a backlog at the end of the history |
| `RepairDriver.RepairCycleDriver.OnStart` | src/storage/repairCycleDriver.ts:37-41 | New state after a start, for every former state |
| `RepairDriver.RepairCycleDriver.RunManual` | src/storage/repairCycleDriver.ts:54-57 | Accepted exactly when running and idle |
| `RepairDriver.RepairCycleDriver.OnTimer` | src/storage/repairCycleDriver.ts:130-137 | A timer that fires during a pass is armed again, otherwise it begins a continuation |
| `RepairDriver.RepairCycleDriver.OnSuccess` | src/storage/repairCycleDriver.ts:90-100 | A completed cycle cancels the timer, an unfinished one arms it |
| `RepairDriver.RepairCycleDriver.OnFailure` | src/storage/repairCycleDriver.ts:111-122 | A failure retries until the limit, then abandons the cycle |
| `RepairDriver.RepairCycleDriver.OnStop` | src/storage/repairCycleDriver.ts:60-65 | Stops and disarms |
| `RepairDriver.StepKeepsInv` | src/storage/repairCycleDriver.ts:37-142 | Every event keeps the fields in agreement with the log and the log orderly |
| `RepairDriver.EventsNoteExactly` | src/storage/repairCycleDriver.ts:37-137 | Which passes each event begins, and which failure abandons the cycle, exactly |
| `RepairDriver.ArmsExactly` | src/storage/repairCycleDriver.ts:90-142 | The timer is armed exactly by an unfinished pass or a retry of a started driver, and waits while a pass runs |
| `RepairDriver.EveryRunIsOrderly` | src/storage/repairCycleDriver.ts:37-142 | In every run at most one pass is unsettled, none begins while stopped, an unfinished cycle neither stopped nor abandoned has an active pass or an armed timer, and a chain of failures never exceeds the limit |
| `Framing.EncodeMessage` | src/storage/replicationProtocol.ts:165-173 | The buffer holds the big-endian length and the body |
| `Framing.ReadMessage` | src/storage/replicationProtocol.ts:180-232 | The chunk loop decides at the first chunk whose bytes mean something |
| `Framing.SplitsDoNotMatter` | src/storage/replicationProtocol.ts:188-221 | However a stream of at most one full frame is split, it reads as what its bytes mean |
| `Framing.RoundTrip` | src/storage/replicationProtocol.ts:165-221 | Every message of at most 4096 bytes is read back from every split of its frame, empty chunks included |
| `Framing.StrictPrefixIsIncomplete` | src/storage/replicationProtocol.ts:216-221 | Every strict prefix, however split, ends in the incomplete-message error |
| `Framing.OversizedIsRefused` | src/storage/replicationProtocol.ts:205-210 | A declared length above the limit is always refused, whatever follows it |
| `Framing.TrailingBytesCanHideAMessage` | src/storage/replicationProtocol.ts:197-200 | Beyond one frame the split matters: a message read alone is refused in one chunk with many further bytes |
| `Framing.Uint32RoundTrip` | src/storage/replicationProtocol.ts:169-170 | The length prefix decodes to the length that was written |

## Left out

- Express routing, multer, CORS, API keys, rate limits, logging, HTTP bodies, metrics and health snapshots.
- Helia, libp2p, bitswap, UnixFS and the datastore: pins are a set, the datastore is a map, block deletion is an event.
- CID, multiaddr and JSON parsing and string validation: identifiers are naturals, the placement hash is an arbitrary function with ties broken by id, a message is the byte string of its JSON form.
- Dialling, timeouts and peer-session recovery: they are message loss; the retry after session recovery is not part of this model.
- Startup backfill and pin-intent markers: they belong to the initial state; pins without a record are allowed where `have` can see them.
- Configuration validation: its guarantees are the predicates `ValidTiers` and the mode of a strict request.
- The re-entry guards of the operation lock and of the registry (AsyncLocalStorage): requests are not nested.
- Failures of pin, unpin and stat calls: they act like a save that fails at the same point, and compensation is assumed to succeed, as are reads.
- The events of the upload middleware, multi-CID requests, the collection run and the strict-upload coordinator interleave at every await, so `UploadWindow`, `CidLocks`, `GcRun` and `StrictUpload` are transition systems on values; their updates in place are not modelled separately from the steps.
- The free-space claim and the concurrency limiter around an upload, the demotion sweep cursor, the block meter and the parsing of repair evidence.
- Handover.HandoverKeepsCore: about handover, so a core node does not release the file, nor let a temporary upload adopt a bare pin of it; what the other nodes do is unrestricted.
- Intake.IntakeBudget.Reserve: for a clock that does not run backwards; buckets are identified by their start time instead of by reference, which is the same for such a clock.
- GcRun.ReuploadSurvives: for a written record whose claimed pin is real; one without it may get the pin back from the collection.
- Upload tokens are random and used by one request: a new one is carried by no record or baseline.
- Placement.RetrievalReachesHolders: for a peer list without repetition and without this node, which is what `getReplicationPeers` returns.
- StrictUpload.QuorumMissRestores: a rollback that fails ends the request with an error and its partial effect is not described; the configured peers do not change during a request; a message that arrives after its abort was acknowledged may stage again, which the abort markers of the peer are for (`AbortMarkers.MarkerRejectsStage`).
- RepairCycle.PublishedMeansCovered: coverage is about CIDs handed out, not about CIDs processed, and replication is enabled.
- What a repair pass finds about each CID (probes, pushes, rescues): the findings of a pass are arbitrary.
