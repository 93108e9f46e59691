# Titus executor, verified

A Dafny model of the parts of the Titus executor and its VPC service where state, concurrency and
arithmetic meet, with proofs over every input, every interleaving and every reachable state.

Five areas are modelled.

* **Attachment of branch ENIs** (`Attachment*.dfy`). The database tables, EC2, the advisory locks and the
  local state of every worker form one state machine. A worker may crash between any two steps, or lose its
  lock and go on, and every EC2 answer may be lost. `AttachmentStore` holds the database operations as methods
  that change the tables in place, each proved to take one step of that machine.
* **Addresses on branch ENIs** (`Address*.dfy`, `EniGc.dfy`, `GcV3.dfy`, `GcV1.dfy`, `DeleteExcess.dfy`).
  Assigning, unassigning, replaying and garbage collecting addresses form a second state machine. The
  choice of an address, the collectors and the deletion of excess ENIs are methods proved against it or
  against set-level specifications.
* **The shell word expander** (`Shell*.dfy`). The one-pass, cursor-driven expander with its incremental word
  builder is proved equal to "parse to a template, then render". The grammar is the subset of sections 2.2,
  2.6.2 and 2.6.5 of the POSIX.1-2017 Shell Command Language that the code accepts.
* **Stdio log rotation** (`Stdio*.dfy`). A file with bytes, an active offset and virtual ranges recorded in
  extended attributes, cut by rotation and reclaimed by punching holes, over its whole life.
* **The task runner** (`Runner*.dfy`, `PodBackend.dfy`). The goroutine that runs the container, the one that
  publishes statuses, the backend that writes them, both bounded channels and a kill at any moment form a
  third state machine. The loops and the shutdown are also given as code, and the pod phases are derived
  from what is published.

In the state machines a committed transaction or an EC2 call is one event, and runs are sequences of events
in any order that the guards allow. `Enabled` says when an event can happen and `Step` what it does. What that
amounts to is stated apart from them, over the columns of the tables (`AttachmentEdges`, `AddressEffects`), the text
of a word (`ShellMeaning`) and the events of a run (`RunnerOutcome`); `AttachmentProgress` and `RunnerWitness` show
that the machines get where they should.

## Where the code does not keep a promise

In each case the model follows the code, one member shows a failure, and another says exactly when the
property holds.

* A static address in use can leave its task's ENI in two ways. Unassigning one reads without a lock and then
  reassigns the address to the ENI it read (vpc/service/assign_addresses_v3.go:1180-1251), even if the address
  went to another task in between. Hard GC takes an address off in EC2 before its transaction can still fail
  (vpc/service/gc_v3.go:93-118). `AddressCounterexample.AddressCanBeMoved` and `AddressCanBeTakenOff` are such
  runs; `AddressRuns.PlacementExact` is the exact condition.
* Virtual file keys are time stamps that start with the day of the month, and uploads go in key order
  (filesystems/watcher.go:356-386, 494-520), so once the stdio loop was stalled past the threshold a range can
  be wiped before its upload: `StdioRuns.MonthEndLoses`. In normal mode ranges older than the threshold are
  passed over (filesystems/watcher.go:430), and a newer one's hole wipes them: `StdioLossless.OldRangeLost`. A
  range is reclaimed even when its upload failed, and its hole punched even when its record stays
  (filesystems/watcher.go:439-456): `StdioLossless.FailedUpload`, `StdioLossless.UndroppedIsZeroed`.
  `StdioLossless.LosslessExact` is the exact condition for all four. A loop that keeps up and whose uploads
  succeed loses nothing, however the keys sort: `StdioRuns.NothingLost`.
* A rotation that finds no newline, or cannot read the file, cuts at 0 (filesystems/watcher.go:479-486, 533-560)
  and breaks the tiling. `StdioRuns.NoNewlineBreaks`, `StdioRuns.FailedReadBreaks`, and `StdioRuns.TilingExact`
  for every run.
* A virtual file attribute without exactly one comma is not an error but reads as the range (0, 0)
  (filesystems/watcher.go:388-414), so its bytes are never uploaded. `StdioCodec.ThreePartsReadAsEmpty` and
  `StdioLossless.GarbledRecord`.
* Inside double quotes a final backslash escapes the closing quote
  (executor/dockershellparser/shell_parser.go:186-225). `ShellLaws.DoubleQuoteFails` and
  `ShellLaws.DoubleQuoteRoundTrip`.
* The scanner drops a byte order mark at the start of a substitution, so the two results of the expander can
  differ. `ShellLaws.BomIsDropped` and `ShellLaws.WordsSplitTheResult`.
* A container that cannot be launched because of its entry point is reported Failed and then Lost
  (executor/runner/runner.go:269-275), and the second report makes the runner panic.
  `RunnerWitness.RunnerCanPanic` and `RunnerProofs.PanicsExactly`.
* The runner decides on the terminal status before it waits for room to send it
  (executor/runner/runner.go:404-419, 509-522), so a task that is killed meanwhile is still reported Failed or
  Lost. `RunnerWitness.KillCanComeTooLate` and `RunnerProofs.ShutdownStatus`.
* The runner closes its stopped channel before its update channel (executor/runner/runner.go:135-139), so the
  backend can return before it reads the terminal status (vk/backend/backend.go:183-190).
  `RunnerWitness.TerminalCanBeLost`, `RunnerWitness.ContextCanLoseTheStatus` and
  `RunnerBackend.TerminalLostExactly`.
* Once its context is done the backend waits for the runner without reading (vk/backend/backend.go:185-190),
  while the runner waits for room in the update channel (executor/runner/runner.go:509-522).
  `RunnerWitness.RunnerCanBlock` and `RunnerBackend.StopsUnlessBlocked`.
* Before it takes IPv6 addresses off an ENI, the collector looks them up in the IPv4 column
  (vpc/service/gc_v3.go:998-1018), so the check never fires. `EniGc.Service.UnassignIPv6` says exactly which
  addresses go, and `EniGc.InUseIPv4Stays` what the check does for IPv4.
* The first agent GC tolerates one address that is both allocated and unallocated, because it compares the
  size of the overlap with 1 (vpc/service/gc.go:301). `GcV1.OneOverlapPasses`, `GcV1.PartitionExact`,
  `GcV1.DeleteExact`.
* One excess ENI that still has addresses stops the deletion of all older ones in its subnet, since the same
  ENI is selected every time (vpc/service/delete_excess_branches.go:146-205). `DeleteExcess.StuckSubnet` and
  `DeleteExcess.Service.DeleteAll`.

Two more observations. The branch of finishDisassociation that puts a row back to `attached`
(vpc/service/branch_enis.go:866-897) is never taken: an unforced row on its way out is never in use, and after
a failed query the commit of that query's transaction fails too, so the revert is rolled back with it
(`AttachmentRuns.NeverReverts`). Hard GC's answer leaves out the static assignments it moved
(vpc/service/gc_v3.go:198-310), unlike soft GC's; `GcV3.Service.HardGC` relates the two.

## Assumptions

* EC2 honours client tokens, and nobody else changes associations or addresses. An EC2 request does not
  outlive the transaction that issued it.
* Serial columns, ENI ids and client tokens are fresh. The unique indices and cascades are those of
  vpc/service/db/migrations.
* EC2 calls made under a row lock are atomic with it. One `ip_address_attachments` row exists per static
  allocation.
* Integers stand for the float64 block arithmetic, which is exact below 2^53. Strings are sequences of
  code points; letters and digits beyond ASCII are parameters. In particular an environment value that is not
  valid UTF-8, whose stray bytes the scanner replaces by U+FFFD, is outside the model.

## Model

| member | source | states |
|---|---|---|
| AttachmentInvariant.InvInit | vpc/service/branch_enis.go:455-541 | the empty system satisfies the protocol invariant |
| AttachmentInvariant.InvStep | vpc/service/branch_enis.go:180-541 | every event keeps the invariant: rows match their ENI, token and what EC2 made of the token, live rows never share a branch or a trunk slot, and what each worker loaded stays true of its row, also after it has lost the lock |
| AttachmentInvariant.RowMoves | vpc/service/branch_enis.go:376-453 | one event moves a row along one edge of the protocol at most, never back to attached, and never changes its branch, trunk slot, token or a set association id |
| AttachmentInvariant.AssociationOwner | vpc/service/branch_enis.go:376-453 | two rows with one association id are one row |
| AttachmentInvariant.AssignmentsOkStep | vpc/service/branch_enis.go:623-768 | every event keeps: an association in use belongs to a row, which is attached or was forced out |
| AttachmentInvariant.WorkersOkStep | vpc/service/branch_enis.go:770-942 | every event, of any worker, keeps what every other worker knows of its row true, with or without the lock, and no worker comes to revert a row |
| AttachmentLocks.LockGuards | vpc/service/branch_enis.go:180-453 | as long as no worker of a row loses its lock, one worker at a time has the row and finds it in the phase it left it in, so that its guarded updates never miss |
| AttachmentRuns.RunInv | vpc/service/branch_enis.go:1138-1234 | the invariant holds in every state of every run |
| AttachmentRuns.RowPersists | vpc/service/branch_enis.go:376-453 | over a run a row keeps its token and association id, and failed or unattached rows never change again |
| AttachmentRuns.TokenPersists | vpc/service/branch_enis.go:455-541 | even a deleted row keeps its client token for good, and EC2 what the token produced |
| AttachmentRuns.AtMostOneAssociation | vpc/service/branch_enis.go:78-178 | however often and by whomever a row is retried, EC2 creates one association for it at most |
| AttachmentRuns.AttachedCarriesItsAssociation | vpc/service/branch_enis.go:180-374 | a row has an association id exactly in the states attached, unattaching and unattached; it is the one its token produced and joins that row's branch, trunk and VLAN, and no other row has it |
| AttachmentRuns.AttachedIsLive | vpc/service/branch_enis.go:180-374 | in every state of every run a row the database calls attached is attached in EC2, on the row's branch, trunk and VLAN |
| AttachmentRuns.UnattachedIsGone | vpc/service/branch_enis.go:781-942 | and a row it calls unattached is not |
| AttachmentRuns.NeverReverts | vpc/service/branch_enis.go:866-897 | finishDisassociation never reverts a row: its recheck never finds an assignment, and a failed query takes the revert with it |
| AttachmentRuns.GoneExactly | vpc/service/branch_enis.go:588-621 | an association is gone from EC2 exactly if an earlier step disassociated it |
| AttachmentRuns.UnforcedUnused | vpc/service/branch_enis.go:781-942 | an unforced disassociation, or one whose row is deleted meanwhile, only ever removes an association that no assignment uses |
| AttachmentRuns.UnforcedNeverUsedAgain | vpc/service/branch_enis.go:623-942 | and none uses it in any later state of the run |
| AttachmentRuns.PurgedHasNoRow | vpc/service/delete_excess_branches.go:211-269 | when an excess ENI is about to be deleted in EC2 it has no attachment row and can get none, however stale the selection was |
| AttachmentEdges.EdgesExact | vpc/service/branch_enis.go:180-997 | over every run and for every row: it is inserted exactly by startAssociation, attaching and with the columns asked for; it is deleted exactly with its branch ENI; and it goes to attached, failed, unattaching or unattached exactly by that commit, by a worker of the row or a request for it, from the phase before, with the association id or the force flag that the commit carries; no other column ever changes |
| AttachmentEdges.Ec2Exact | vpc/service/branch_enis.go:180-374 | EC2 creates an association exactly by the first call with a client token, joining the trunk, branch and VLAN of the row the token was drawn for; it becomes live exactly then, and ceases to be exactly by a call to disassociate it |
| AttachmentEdges.AssignmentsExact | vpc/service/delete_excess_branches.go:211-269 | an assignment is made exactly for the association of an attached row, and goes exactly when it is deleted or the ENI of that row is |
| AttachmentEdges.LiveRowsExclusive | vpc/service/branch_enis.go:455-541 | rows that are attaching, attached or unattaching never share a branch ENI or a trunk slot, and their ENI is never purged |
| AttachmentProgress.CanStart | vpc/service/branch_enis.go:455-541 | a row can be inserted exactly for an ENI of the table that no attaching, attached or unattaching row has, in a slot that none of them has, with a fresh token |
| AttachmentProgress.CanAttach | vpc/service/branch_enis.go:180-374 | every run can be continued until any given attaching row is attached, with the association that EC2 made for it already if there is one |
| AttachmentProgress.CanFail | vpc/service/branch_enis.go:286-361 | or until it has failed, if EC2 refuses |
| AttachmentProgress.LostAnswerIsFound | vpc/service/branch_enis.go:180-374 | when EC2 acts and its answer is lost, the worker is gone, and a retry ends with that same association |
| AttachmentProgress.CanStartLeaving | vpc/service/branch_enis.go:623-768 | an attached row can be marked for removal exactly if that is forced or nothing uses its association |
| AttachmentProgress.CanUnattach | vpc/service/branch_enis.go:781-997 | every run can be continued until any given unattaching row is unattached and its association, and no other, is gone from EC2 |
| AttachmentProgress.WholeLife | vpc/service/branch_enis.go:180-997 | for any ENIs, slot, token and task: a run through attached, assigned, forced out while in use, and unattached |
| AttachmentProgress.CanPurge | vpc/service/delete_excess_branches.go:211-269 | an ENI can be purged exactly if it has no row that is attaching, attached or unattaching |
| AttachmentProgress.TwoWorkers | vpc/service/branch_enis.go:180-285 | once a worker has lost its lock, a second one can have the row |
| AttachmentStore.Store.StartAssociation | vpc/service/branch_enis.go:455-541 | succeeds exactly if the transaction commits, the ENI is in its table and no attaching, attached or unattaching row has the branch or the trunk slot; then it adds one row, with a fresh id and the columns asked for, and else changes nothing, which is the protocol's step or none; each error exactly in its case |
| AttachmentStore.Store.FinishAssociationInDB | vpc/service/branch_enis.go:376-453 | after EC2's answer: succeeds exactly if some try commits after serialization failures only and the row is still attaching, which it always is while nobody has lost the row's lock; then the row is attached with that association id and nothing else changes, as in the protocol's step |
| AttachmentStore.Store.FailAssociationInDB | vpc/service/branch_enis.go:286-361 | the same for an association that EC2 refuses for good: the row is failed and nothing else changes |
| AttachmentStore.Store.HasAssignments | vpc/service/branch_enis.go:999-1021 | an error exactly if the query fails, and else whether the listing, when it is complete, has an assignment of the association |
| AttachmentStore.Store.StartDissociation | vpc/service/branch_enis.go:623-768 | succeeds exactly if a try commits and the association has a row that is leaving, forced out or in nobody's use; then that row is unattaching with the force flag passed, unless it was leaving already, and nothing else changes; each error exactly in its case |
| AttachmentStore.Store.Recheck | vpc/service/branch_enis.go:849-898 | goes on to EC2 exactly if it is forced or its query does not fail, and never has to revert; the protocol's worker goes the same way |
| AttachmentStore.Store.FinishDisassociationDoUpdate | vpc/service/branch_enis.go:944-997 | if a try commits, exactly that row is unattached, from whatever state; the protocol's step, and none otherwise |
| AddressInvariant.InvStep | vpc/service/assign_addresses_v3.go:554-741 | every step keeps: primaries in place, one attached association per ENI, static addresses used by exactly the task they are attached to, no address used twice in an association |
| AddressInvariant.PlacedStep | vpc/service/assign_addresses_v3.go:1180-1251 | every step keeps each address in use on its association's ENI, except exactly two: an unassignment that moves a static address now serving another task on another ENI, and a hard GC that takes an address off and then rolls back |
| AddressInvariant.Collects | vpc/service/gc_v3.go:583-728 | as long as nothing was displaced, ENI GC never takes an address in use on an attached association, whatever its snapshot |
| AddressRuns.RunInv | vpc/service/assign_addresses_v3.go:554-741 | the address invariant holds in every state of every run |
| AddressRuns.AddressesDistinct | vpc/service/assign_addresses_v3.go:1012-1178 | two tasks never share an address within one association, nor a static address anywhere |
| AddressRuns.PlacementExact | vpc/service/assign_addresses_v3.go:1180-1251 | throughout a run addresses in use are on their ENI exactly if no unassignment comes too late and no hard GC fails after taking an address off |
| AddressRuns.GcTakesOnlyIdle | vpc/service/gc_v3.go:583-728 | for every stale snapshot, ENI GC takes only addresses that are on that ENI, not primary and, on an attached ENI, not used in its association and not seen for two minutes or static and unused; while nothing was displaced, none in use on any attached association |
| AddressRuns.StraysGoHome | vpc/service/gc_v3.go:804-847 | a static address nobody uses comes off the ENI with the step that takes it home enabled, and that step puts it on its home ENI; `EniGc.Service.DoGCENI` takes that step for every address that EC2 does not refuse |
| AddressRuns.ClassesStep | vpc/service/assign_addresses_v3.go:619-738 | every step keeps: exactly the completed assignments have a class id, one each |
| AddressRuns.EipsStep | vpc/service/assign_addresses_v3.go:743-817 | every step keeps: only completed assignments have an elastic address, one at most |
| AddressRuns.CompletedReplays | vpc/service/assign_addresses_v3.go:205-383 | in every reachable state a completed assignment replays with exactly one response |
| AddressRuns.ReplayStep | vpc/service/assign_addresses_v3.go:1253-1326 | while an assignment lasts, a step leaves its response alone except exactly the removal of its elastic address |
| AddressRuns.ReplayStable | vpc/service/assign_addresses_v3.go:205-383 | over any stretch of a run in which the assignment lasts and keeps its elastic address, every replay returns the same response |
| AddressEffects.CompletionReplays | vpc/service/assign_addresses_v3.go:619-741 | after an event that completes an assignment, the replay is exactly the association, its ENI, the address the event names (or none), and its IPv6 address, class id and elastic address |
| AddressEffects.ReplaysAsCompleted | vpc/service/assign_addresses_v3.go:205-383 | and so it is in every later state of the run in which the assignment lasts and keeps its elastic address |
| AddressEffects.CompletedBy | vpc/service/assign_addresses_v3.go:554-741 | every completed assignment was completed by such an event of the run |
| AddressEffects.ElasticRemoved | vpc/service/assign_addresses_v3.go:1253-1326 | removing the elastic address leaves the rest of the answer as it is |
| AddressEffects.AssignmentsExact | vpc/service/assign_addresses_v3.go:554-741 | an assignment appears exactly by its insertion, with nothing given to it yet, is completed exactly by a completing event for it, and goes exactly when it is deleted |
| AddressEffects.DeletionCascades | vpc/service/assign_addresses_v3.go:1328-1417 | with an assignment go exactly its own static attachment, class id and elastic address |
| AddressEffects.HoldersExact | vpc/service/assign_addresses_v3.go:1419-1460 | a static address is attached to a task exactly by the event that gives it to the task |
| AddressEffects.PlacesExact | vpc/service/assign_addresses_v3.go:1115-1251 | which events put an address on which ENI, which take it off, and that no other event moves it |
| AddressEffects.TimesExact | vpc/service/assign_addresses_v3.go:1136-1148 | an address counts as seen now exactly if its assignment is removed or EC2 has just granted it |
| AddressEffects.UnassigningExact | vpc/service/assign_addresses_v3.go:1180-1251 | an unassignment works with the ENI and the address it has read, once, and only then drops the assignment |
| AddressEffects.CollectsFromAttached | vpc/service/gc_v3.go:647-728 | an address comes off an attached ENI if and only if the description lists it, it is there, and it is static and in nobody's use, or unused by the association and not seen for 120 seconds while all such addresses of the description are still there and none is in use on the ENI |
| AddressEffects.CollectsFromUnattached | vpc/service/gc_v3.go:583-645 | an address comes off an unattached ENI if and only if the description lists it, it is there, and it is static and in nobody's use, or all others that are not are still there |
| AddressEffects.CanComplete | vpc/service/assign_addresses_v3.go:554-741 | a pending task can be completed without an address, with any free one of its ENI that is not static, or with any static one nobody holds |
| AddressEffects.CanUnassignStatic | vpc/service/assign_addresses_v3.go:1180-1251 | the unassignment of a static address in use can be carried through |
| AddressCounterexample.AddressCanBeMoved | vpc/service/assign_addresses_v3.go:1180-1251 | a run, without any failed hard GC, that moves a static address off the ENI of the task that uses it |
| AddressCounterexample.AddressCanBeTakenOff | vpc/service/gc_v3.go:93-118 | a run, without any unassignment, in which hard GC takes an address off and its task keeps it in the database |
| AddressAllocator.Request | vpc/service/assign_addresses_v3.go:1115-1123 | the number of addresses to ask for: between 1 and the batch size, never past the limit, and 0 exactly if the ENI is full |
| AddressAllocator.LeastRecentlyUsed | vpc/service/assign_addresses_v3.go:1086-1112 | of all unused addresses the loop returns one that was seen no later than any other |
| AddressAllocator.LastUsedTimes | vpc/service/assign_addresses_v3.go:1086-1101 | the time of every address is its row's, or the epoch |
| AddressAllocator.BranchEni.AssignIPv4 | vpc/service/assign_addresses_v3.go:1012-1178 | each error exactly under its condition; a free non-static address is reused, the one that went unseen for longest (never seen first), without an EC2 call; otherwise one batch is requested within the limit and a non-static address of it returned |
| AddressAllocator.BranchEni.AssignIPv6 | vpc/service/assign_addresses_v3.go:908-1010 | the same for IPv6, without static addresses; the first address of a granted batch is returned, and an empty one is the index error on which the code stops |
| AddressAllocator.FreeIsEnabled | vpc/service/assign_addresses_v3.go:1052-1112 | whatever is picked without EC2 is a legal step of the address model |
| AddressAllocator.GrantedIsEnabled | vpc/service/assign_addresses_v3.go:1115-1178 | and so is whatever is picked from a granted batch, while nothing was displaced |
| AddressAllocator.FullNeedsStrays | vpc/service/assign_addresses_v3.go:1046-1120 | while fewer than the limit are in use, only unused static addresses on the ENI can make an assignment fail for lack of room |
| AddressAllocator.BatchFits | vpc/service/assign_addresses_v3.go:1115-1134 | a granted batch never takes the ENI past its limit |
| EniGc.Service.DoGCENI | vpc/service/gc_v3.go:849-911 | the code takes exactly the model's GC step for the ENI's status and changes nothing when the ENI is not in the state EC2 described; every unused static address described ends at home, or nowhere if EC2 refuses, and no address moves but described secondary ones of this ENI |
| EniGc.Service.UnassignAttached | vpc/service/gc_v3.go:647-728 | for an attached ENI exactly the idle addresses and strays come off, nothing idle if one of them is still assigned |
| EniGc.Service.UnassignUnattached | vpc/service/gc_v3.go:583-645 | for an unattached ENI everything but the primary comes off |
| EniGc.Service.RemoveStaticAddresses | vpc/service/gc_v3.go:804-847 | finds exactly the static addresses of the description that no task uses |
| EniGc.Service.UnusedRows | vpc/service/gc_v3.go:686-724 | finds exactly the addresses that no assignment of the association uses and that were not seen for two minutes |
| EniGc.Service.GoHome | vpc/service/gc_v3.go:913-936 | every address handed to it ends on its home ENI, and no other address moves |
| EniGc.Service.UnassignIPv6 | vpc/service/gc_v3.go:757-800 | EC2 is asked for exactly the IPv6 addresses that no assignment of the current association uses and that were not seen for two minutes: the check before the call never holds one back, although a task of an earlier association uses it |
| EniGc.InUseIPv4Stays | vpc/service/gc_v3.go:953-992 | for IPv4 it does: what a task of any association uses on the ENI is never unassigned as idle |
| GcV3.Service.SoftGC | vpc/service/gc_v3.go:151-196 | lists exactly the assignments whose association is on the trunk and whose task does not run, each once |
| GcV3.Service.TryReallocate | vpc/service/gc_v3.go:42-133 | a round selects an assignment on the trunk with a static address and a task that does not run, exactly if there is one and no error comes first, and leaves the state its EC2 calls and its deletion make, in each way it can fail |
| GcV3.RoundSteps | vpc/service/gc_v3.go:93-130 | what a round does is steps of the address model, also when the deletion fails after EC2 acted, and it moves no other address |
| GcV3.Service.ReallocateStatics | vpc/service/gc_v3.go:135-149 | terminates; succeeds exactly if no round fails, and then exactly the stale static assignments are gone; no address moves but theirs, off their ENI or home |
| GcV3.Service.HardGC | vpc/service/gc_v3.go:198-310 | answers exactly if no round fails and its transaction commits. Whatever fails, every assignment of a running task or of another trunk stays as it is, with all that hangs on it, and no address moves but static ones of tasks that do not run, off every ENI or home. With an answer only running tasks are left on the trunk, everything gone was moved (static) or is in the answer (not static), and exactly the addresses and ENIs of the answer count as just used |
| GcV3.RunningKeepsAddress | vpc/service/gc_v3.go:198-310 | whatever fails in hard GC, a running task keeps its assignment, its attachment and its address in its place |
| GcV1.IpsToFree | vpc/service/gc.go:39-67 | exactly the IPv4, non-primary addresses on the interface whose time is further back than the timeout |
| GcV1.CalculateGc | vpc/service/gc.go:282-365 | each error exactly under its condition, and on success the four sets by what they mean |
| GcV1.CalculationMeans | vpc/service/gc.go:282-365 | freed are exactly the secondary IPv4 addresses on the interface whose last entry in the report is older than the timeout; to forget are those and what left the interface with a last entry of 300 seconds or more ago; bumped is what stays and was reported neither way |
| GcV1.PartitionExact | vpc/service/gc.go:299-356 | every interface address is exactly one of freed, allocated, kept unallocated, bumped if and only if no interface address is reported both allocated and unallocated |
| GcV1.DeleteExact | vpc/service/gc.go:322-340 | the delete set is disjoint from the bumped ones, never frees the primary, and is disjoint from the allocated ones if and only if no doubly reported address off the interface is older than five minutes |
| GcV1.OneOverlapPasses | vpc/service/gc.go:300-305 | an input whose one doubly reported address passes the check and is to be deleted |
| DeleteExcess.NewestKept | vpc/service/delete_excess_branches.go:146-157 | deleting the first ENI past the newest n leaves the newest n |
| DeleteExcess.NewestSize | vpc/service/delete_excess_branches.go:19-26 | the newest n of a set are n, or all if there are fewer |
| DeleteExcess.NewestAreNewer | vpc/service/delete_excess_branches.go:19-26 | whatever is not among the newest n is older than each of them |
| DeleteExcess.Service.SelectExcess | vpc/service/delete_excess_branches.go:146-157 | finds the eligible ENI with exactly 50 newer ones, and nothing exactly if there are 50 or fewer |
| DeleteExcess.Service.DeleteOne | vpc/service/delete_excess_branches.go:100-269 | deletes nothing but the settled, unattached ENI of the subnet that has exactly 50 newer such ones, only if it has no IPv6 address and no IPv4 address but one, is still unattached at the time of the deletion and no step fails before; reports each outcome exactly |
| DeleteExcess.Service.DeleteAll | vpc/service/delete_excess_branches.go:78-98 | repeated, it terminates with exactly the 50 newest eligible ENIs left and nothing else changed, if and only if all the others are clean; whatever it deletes is older than all it leaves |
| DeleteExcess.StuckSubnet | vpc/service/delete_excess_branches.go:146-205 | a subnet with 51 ENIs that never gets down to 50, because the oldest still has an address |
| ShellWord.ProcessWord | executor/dockershellparser/shell_parser.go:31-40 | the one-pass expander returns the rendering of the template that is read off the word alone, or that template's error |
| ShellWord.ProcessWords | executor/dockershellparser/shell_parser.go:49-58 | the incremental splitter returns the rendering split on runs of unquoted white space, empty pieces dropped |
| ShellWord.ShellWord.ProcessStopOn | executor/dockershellparser/shell_parser.go:113-166 | consumes exactly what the grammar consumes and returns rendering and words of it |
| ShellWord.ShellWord.ProcessSingleQuote | executor/dockershellparser/shell_parser.go:168-184 | consumes a single-quoted piece and returns its text |
| ShellWord.ShellWord.ProcessDoubleQuote | executor/dockershellparser/shell_parser.go:186-225 | consumes a double-quoted piece and returns its rendering |
| ShellWord.ShellWord.ProcessDollar | executor/dockershellparser/shell_parser.go:227-280 | consumes a substitution and returns its rendering, or its error |
| ShellWord.ShellWord.ProcessName | executor/dockershellparser/shell_parser.go:282-301 | consumes exactly the name at the cursor |
| ShellWord.ShellWord.GetEnv | executor/dockershellparser/shell_parser.go:303-320 | returns the first binding of the name, or the empty string |
| ShellWord.WordsBuilder.AddChar | executor/dockershellparser/shell_parser.go:70-80 | keeps: closed words are the split of what came before the open word |
| ShellWord.WordsBuilder.AddString | executor/dockershellparser/shell_parser.go:87-93 | adds every character of a substitution as unquoted |
| ShellWord.WordsBuilder.GetWords | executor/dockershellparser/shell_parser.go:100-109 | returns the split of everything that was added |
| ShellQuoting.ParseShow | executor/dockershellparser/shell_parser.go:113-301 | every well-formed template can be written as a word, and the parser reads exactly it back |
| ShellLaws.SingleQuoteRoundTrip | executor/dockershellparser/shell_parser.go:168-184 | a single-quoted string without single quotes expands to itself, and to one word, in every environment |
| ShellLaws.BackslashRoundTrip | executor/dockershellparser/shell_parser.go:142-158 | so does any string with a backslash before every character |
| ShellLaws.DoubleQuoteRoundTrip | executor/dockershellparser/shell_parser.go:186-225 | so does a double-quoted string with double quotes and dollars escaped, if and only if it does not end in a backslash |
| ShellLaws.DoubleQuoteFails | executor/dockershellparser/shell_parser.go:186-225 | what a string that ends in a backslash expands to instead |
| ShellLaws.ExpandDependsOnNames | executor/dockershellparser/shell_parser.go:227-280 | both results depend on the environment only through the first bindings of the names the word mentions; substituted text is never read as a template |
| ShellLaws.WordsSplitTheResult | executor/dockershellparser/shell_parser.go:87-98 | for values that are sequences of code points: the characters split into words are those of the single result, if and only if no unquoted substitution starts with a byte order mark |
| ShellLaws.BomIsDropped | executor/dockershellparser/shell_parser.go:87-93 | a word and an environment whose two results differ |
| ShellLaws.SplitKeeps | executor/dockershellparser/shell_parser.go:70-109 | splitting drops separators and nothing else, and makes no empty word |
| ShellMeaning.VariableMeans | executor/dockershellparser/shell_parser.go:227-238 | `${name}` expands to the value of the first entry for the name, and to nothing if there is none; in double quotes to one word, whatever is in it |
| ShellMeaning.ConditionalMeans | executor/dockershellparser/shell_parser.go:239-266 | `${name:-'s'}` expands to s if that value is empty and to the value otherwise, `${name:+'s'}` to s if it is not empty and to nothing otherwise, for every name, s and environment |
| ShellMeaning.BareVariableMeans | executor/dockershellparser/shell_parser.go:274-301 | `$name` ends where the name does: one digit, or letters, digits and underscores; the plain text after it stands for itself |
| ShellMeaning.BareDollarMeans | executor/dockershellparser/shell_parser.go:274-279 | a dollar sign that neither a name nor a brace follows is a dollar sign |
| ShellMeaning.UnquotedValueSplits | executor/dockershellparser/shell_parser.go:87-93 | outside quotes a value is split exactly at white space |
| ShellMeaning.PlainMeans | executor/dockershellparser/shell_parser.go:113-166 | plain text expands to itself |
| ShellMeaning.SpaceSeparates | executor/dockershellparser/shell_parser.go:70-80 | a character between two words separates them exactly if it is one of the 25 white space characters of Unicode |
| ShellMeaning.ExpandConcat | executor/dockershellparser/shell_parser.go:113-166 | two texts one after the other expand to what each expands to, one after the other |
| ShellMeaning.OpenSingleQuoteMeans | executor/dockershellparser/shell_parser.go:168-184 | a single quote that is never closed runs to the end of the word |
| ShellMeaning.FinalBackslashMeans | executor/dockershellparser/shell_parser.go:142-158 | a backslash at the end of the word is dropped |
| ShellMeaning.MissingColonMeans | executor/dockershellparser/shell_parser.go:271-273 | a braced name that neither a closing brace nor a colon follows is an error |
| ShellMeaning.UnsupportedModifierMeans | executor/dockershellparser/shell_parser.go:267-269 | so is any modifier but + and -, and the error names it |
| ShellMeaning.MissingModifierMeans | executor/dockershellparser/shell_parser.go:239-269 | so is a word that ends after the colon |
| ShellMeaning.LookupIs | executor/dockershellparser/shell_parser.go:303-320 | the loop over the environment finds the first entry for the name, with or without an equals sign |
| ShellTemplate.SplitAppend | executor/dockershellparser/shell_parser.go:70-109 | splitting distributes over concatenation at a separator, which is what lets it be done incrementally |
| StdioCodec.ParseFormatInt | filesystems/watcher.go:576-585 | every 64-bit integer survives being written and read |
| StdioCodec.FetchEncoded | filesystems/watcher.go:388-414 | what a rotation records as range and offset is what is read back |
| StdioCodec.Decimal | filesystems/watcher.go:576-585 | numbers are written in decimal |
| StdioCodec.OnlyNumbersParse | filesystems/watcher.go:401-411 | what parses is digits, at least one, behind a sign or none, within 64 bits |
| StdioCodec.TwoPartsRead | filesystems/watcher.go:388-414 | two texts joined by a comma are refused exactly if one is no number, and else are start and length |
| StdioCodec.ThreePartsReadAsEmpty | filesystems/watcher.go:395-399 | a value that is no range and reads as the empty range at 0 |
| StdioLossless.GarbledRecord | filesystems/watcher.go:388-458 | a record that was overwritten by any value without exactly one comma is dropped by the next pass with nothing uploaded and no byte touched, and the ranges left tile the file exactly if the record was empty |
| StdioRotation.CutIsGood | filesystems/watcher.go:533-560 | a cut lies beyond the active offset and just after the file's last newline, because files are only rotated when they have outgrown the search window |
| StdioRotation.RotationTiles | filesystems/watcher.go:460-520 | a rotation keeps ranges plus tail tiling the file if and only if it finds a newline (or nothing was rotated yet), its attribute writes succeed or are undone, and it overwrites no range that holds bytes |
| StdioRotation.BadRotation | filesystems/watcher.go:479-486 | how the tiling breaks otherwise |
| StdioRotation.HalfWritten | filesystems/watcher.go:510-517 | a record that could not be undone breaks the tiling unless it is empty |
| StdioRotation.ReclaimTiles | filesystems/watcher.go:416-458 | removing a range moves the tiling's start past it exactly if it was the first |
| StdioFile.File.GetCutOffset | filesystems/watcher.go:533-560 | 0 exactly if the file cannot be read or its last 16777216 bytes have no newline, and else just after the last newline of the file |
| StdioFile.File.Rotate | filesystems/watcher.go:460-492 | rotates exactly files that have grown by the rotation size, also when the search failed, and keeps the tiling exactly under that condition |
| StdioFile.File.UpdateFile | filesystems/watcher.go:494-520 | for every way its two writes can go: the text recorded under the stamp is the offset and the length in decimal, the active offset moves exactly if both succeed, and exactly when the file stays tiled |
| StdioFile.File.MakeHole | filesystems/xattr/degrading_linux.go:44-54 | zeroes everything below the largest multiple of the block size that is at most the length, and nothing else |
| StdioFile.File.UploadVirtualFile | filesystems/watcher.go:416-458 | in both modes: uploads the range if its time stamp parses and the pass takes it on, then drops its attribute, also if the upload failed, and punches the hole before its last byte, also if the attribute stays, unless files are kept |
| Text.Sorted | filesystems/watcher.go:363-369 | the keys, all of them, in strictly increasing order |
| StdioFile.File.UploadAndReclaim | filesystems/watcher.go:356-386 | the pass takes all attributes in the order of their keys, skips those that cannot be read or parsed, leaves uploads, bytes and attributes as that sequence of ranges makes them, and drops exactly the attributes that were read, parsed, due and removable, unless files are kept |
| StdioFile.File.FinalUpload | filesystems/watcher.go:308-354 | the two final passes and the tail: the second pass finds nothing if the first one took everything on, and everything unchanged if files are kept |
| StdioLossless.LosslessExact | filesystems/watcher.go:356-458 | for every block size and both modes, a pass delivers every range whose record it drops and leaves the others in place, for every content of the file, if and only if the uploads of those it drops succeed and no hole reaches into a range uploaded later or still recorded |
| StdioLossless.FailedUpload | filesystems/watcher.go:439-456 | a pass that drops a range whose upload failed is never safe |
| StdioLossless.UndroppedIsZeroed | filesystems/watcher.go:444-456 | a range whose record could not be removed is zeroed all the same, and the next pass uploads the zeros |
| StdioLossless.TilesHolesClear | filesystems/watcher.go:356-385 | in offset order holes are clear if nothing passed over comes before something taken on, and all of that is dropped |
| StdioLossless.OldRangeLost | filesystems/watcher.go:428-433 | in normal mode a range older than the threshold is wiped by the hole of a newer one that is not, for every such pair |
| StdioLossless.HoleStaysInside | filesystems/xattr/degrading_linux.go:44-54 | a hole ends before the last byte of its range, whatever the block size |
| StdioLossless.HoleEndsOnBlock | filesystems/xattr/degrading_linux.go:44-54 | and it ends on the last block boundary at or before that byte |
| StdioLossless.ByteAfter | filesystems/watcher.go:416-458 | after a pass a byte is zero exactly if some hole reached past it |
| StdioLossless.FinalUploadComplete | filesystems/watcher.go:338-385 | when key order agrees with offset order and uploads and removals succeed, ranges and tail put together are exactly the unreclaimed bytes |
| StdioLossless.WrongOrderLoses | filesystems/watcher.go:356-385 | any two ranges whose keys sort the wrong way round: the first one is lost |
| StdioRuns.TiledStep | filesystems/watcher.go:308-336 | an append, a pass or a rotation, also one that cannot read the file, keeps a tiled file tiled exactly if it is sound |
| StdioRuns.TilingExact | filesystems/watcher.go:308-336 | over every life of a file, with a pass before every rotation and appends at any time, ranges and tail tile what is not reclaimed exactly if every step is sound: a pass leaves no range below one that it drops, and a rotation can read the file, finds a newline, is written whole or not at all and overwrites nothing |
| StdioRuns.PassTiles | filesystems/watcher.go:356-458 | a pass keeps the tiling, from the highest end of what it drops on, exactly if no range stays below that |
| StdioRuns.AtMostOneRange | filesystems/watcher.go:308-336 | while every pass finds every range within the threshold and drops it, at most one range is recorded at any time, and none when a rotation comes |
| StdioRuns.NothingLost | filesystems/watcher.go:308-354 | if, besides, uploads succeed and rotations are sound, what all passes uploaded, the final pass and the tail, put together, are every byte ever written, in order, however the keys sort |
| StdioRuns.FailedReadBreaks | filesystems/watcher.go:479-486 | a rotation that cannot read the file breaks the tiling of every file that was rotated before |
| StdioRuns.NoNewlineBreaks | filesystems/watcher.go:479-486 | a life of a file, for every block size and whatever its passes do, in which a rotation finds no newline and breaks the tiling |
| StdioRuns.StalledLoopLoses | filesystems/watcher.go:308-336 | for any two time stamps that sort the wrong way round: a life of a file whose loop was stalled, so that a pass left the first range, and whose final upload loses that range for every block size smaller than the file |
| StdioRuns.MonthEndLoses | filesystems/watcher.go:494-520 | such a life with rotations on 31 January and 1 February |
| RunnerProofs.InvStep | executor/runner/runner.go:178-202 | every step of either goroutine, and a kill at any moment, keeps what relates the channel, the published statuses and both positions |
| RunnerProofs.RunInv | executor/runner/runner.go:178-202 | and it holds in every state of every run |
| RunnerProofs.StageTidy | executor/runner/runner.go:243-366 | an accepted sequence is at most two Starting, then Running with changing messages, then at most one terminal status |
| RunnerProofs.TidyStage | executor/runner/runner.go:243-366 | and every such sequence is accepted |
| RunnerProofs.PublishedTidy | executor/runner/runner.go:178-202 | in every reachable state what was published is such a sequence, with its one terminal status exactly once the shutdown is over, also when the runner panics |
| RunnerProofs.PublishedGrows | executor/runner/runner.go:178-202 | statuses are only added, and none after the terminal one |
| RunnerProofs.DecisionStands | executor/runner/runner.go:404-419 | from the decision on, the status in hand or published last is the one decided on, however long its send takes and whatever comes meanwhile |
| RunnerProofs.ShutdownStatus | executor/runner/runner.go:368-423 | the terminal status is Finished if the container finished, else Killed if killed by the time of the decision, else what ended the container; a shutdown never finds an unfinished container that was not killed |
| RunnerProofs.NeverCreated | executor/runner/runner.go:245-254 | a task that is over without any decision was killed before the container was created, and is reported Lost |
| RunnerProofs.PanicsExactly | executor/runner/runner.go:269-276 | the runner panics instead of stopping exactly if the launch failed on the entry point |
| RunnerOutcome.SendsExactly | executor/runner/runner.go:243-366 | which update, with which status, text and details, each event of the container side sends, and that no other event sends one |
| RunnerOutcome.EndedBy | executor/runner/runner.go:243-366 | one event at most ends the container, and the first terminal update is exactly the one it sends |
| RunnerOutcome.DetailsFrom | executor/runner/runner.go:262-299 | the details in updates are those that the launch returned |
| RunnerOutcome.OutcomeIs | executor/runner/runner.go:368-423 | the last status of the task, text and details included, from the event that ended the container, the kill and the errors of the shutdown |
| RunnerOutcome.StatusByEvent | executor/runner/runner.go:203-423 | a container that says finished gives Finished, killed or not; unless killed by the decision, one that says failed gives Failed, any other end or a lost connection Lost, a bad request or entry point Failed, another error of preparation or launch Lost, each with its own message and details |
| RunnerOutcome.KilledIfNotEnded | executor/runner/runner.go:368-423 | a task whose container nothing has ended by the decision was killed and is reported Killed |
| RunnerBackend.BackendStep | executor/runner/runner.go:509-522 | every step keeps both channels within their capacity, and the backend only returns once the runner has stopped |
| RunnerBackend.TerminalLostExactly | vk/backend/backend.go:137-193 | when the backend has returned, the published terminal status is missing from what it read exactly if its select took the stopped channel or its context while statuses were queued or the terminal one was still to come |
| RunnerBackend.BlockedForever | vk/backend/backend.go:185-190 | once the backend waits and the update channel has no room for what must still go into it, the runner never stops |
| RunnerBackend.CanStop | executor/runner/runner.go:178-202 | from every other state the runner can still stop |
| RunnerBackend.StopsUnlessBlocked | executor/runner/runner.go:509-522 | a run can be continued until the runner has stopped exactly if it is not blocked in that way |
| RunnerWitness.RunnerCanPanic | executor/runner/runner.go:269-276 | a run that panics |
| RunnerWitness.KillCanComeTooLate | executor/runner/runner.go:404-419 | a run in which a kill between decision and publication leaves the status Failed |
| RunnerWitness.TerminalCanBeLost | vk/backend/backend.go:183-184 | a run whose terminal status is never read because the stopped channel is seen first |
| RunnerWitness.ContextCanLoseTheStatus | vk/backend/backend.go:185-190 | and one because the backend's context is done |
| RunnerWitness.RunnerCanBlock | vk/backend/backend.go:185-190 | a run that ends blocked |
| RunnerWitness.TaskCanFinish | executor/runner/runner.go:243-423 | for every message and details: a run that ends Finished with them |
| RunnerWitness.TaskCanBeKilled | executor/runner/runner.go:337-343 | a run in which a kill ends the monitoring and the task is reported Killed |
| RunnerLoops.Runner.HandleTaskRunningMessage | executor/runner/runner.go:347-366 | sends Running unless it would repeat the last message |
| RunnerLoops.Runner.MonitorContainer | executor/runner/runner.go:307-345 | the loop sends Running updates with the launch's details, and then exactly the update due for the first receive that ends it (finished, failed, lost, or a closed channel; none for a kill), as the model's steps do |
| RunnerLoops.Runner.DoShutdown | executor/runner/runner.go:368-423 | publishes exactly the verdict of the model |
| RunnerLoops.Runner.Consume | executor/runner/runner.go:178-202 | publishes everything before the first terminal update and then one verdict, and panics exactly if anything follows that update |
| RunnerLoops.ModelConsumes | executor/runner/runner.go:178-202 | in every run of the model what is published in the end is exactly what that loop publishes for the updates and the kill that the decision found |
| PodBackend.Pod.RunWithBackend | vk/backend/backend.go:137-193 | beside every run of the runner: writes, in order, exactly the pod statuses due for the updates it took, and no final one exactly if its select abandoned the channel too early; the pod ends Succeeded exactly if the last update taken is Finished, and failed exactly if it is Failed, Killed or Lost |
| PodBackend.Pod.HandleUpdate | vk/backend/backend.go:141-177 | field by field: phase, reason, message, details, and a container that waits, runs since now, or terminated now with the start of the running one before |
| PodBackend.PhasesForward | vk/backend/backend.go:28-45 | over a tidy sequence the phase never goes back and nothing follows Succeeded or Failed |
| PodBackend.PodNeverRegresses | vk/backend/backend.go:47-85 | for every run of the runner and wherever the backend stops, phases never regress, only the last can be final, and it carries the start time of the last Running status if there was one |

## Left out

- AttachmentRuns.RunInv: safety only; a worker may lose its item and never finish (vpc/service/branch_enis.go:1178-1184), so eventual completion is not claimed.
- AddressRuns.PlacementExact: covers IPv4 addresses; IPv6 addresses are recorded in assignments but their place on ENIs is not modelled.
- AddressRuns.CompletedReplays: leaves out subnet id, prefix length and routes, which the replay derives anew, and MAC addresses.
- AddressAllocator.BranchEni.AssignIPv4: prefix lengths are not modelled, and of the addresses that went unseen equally long the sort may put any one first.
- EniGc.Service.DoGCENI: elastic addresses, IPv6 addresses (see `EniGc.Service.UnassignIPv6`), the rate limiter, the five-second limit and the `attachment_generation` column are not modelled; attaching and unattaching ENIs count as attached.
- GcV3.Service.HardGC: the trunk's generation is not modelled, and no assignment is inserted meanwhile.
- DeleteExcess.Service.DeleteOne: retries on serialization failures are not modelled, since they change nothing.
- StdioFile.File.GetCutOffset: a read that returns fewer bytes than there are is not modelled.
- RunnerProofs.InvStep: a launch that succeeds without task details, on which the code exits the process, is not modelled.
- PodBackend.Pod.RunWithBackend: annotations, encoding errors and signals are not modelled.
- Runs of the task runner in which no task is ever accepted.
- Reconciliation of attachments and trunk ENIs, quotas, and versions 1 and 2 of address assignment.
- The elastic address selection, security groups, traffic shaping values and permission handling of an assignment.
- Choosing which ENI an assignment goes to (vpc/service/generate_assignment_id.go): its guards appear as guards of events.
- Traditional log rotation, log viewing and uploading, metadata service, configuration, metrics: plumbing or easy lookups.
