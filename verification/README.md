# Consul ESM, modelled and proved in Dafny

Consul ESM divides the external nodes of a Consul catalog among its running instances, runs their health checks, and writes
the results back to a catalog that others write to as well. This project models four connected parts of it and proves what
they keep, over all runs, whatever other writers and the network do.

* **Check runner and batcher** (`check.go`, `batcher.go`). `Runner.dfy` has the class `CheckRunner` with its maps and methods;
  `Batcher.dfy` the queue; `Probes.dfy` and `Tracking.dfy` the maps of running probes and of tracked checks. Each method is
  proved equal to a function or relation of values, and the properties are proved of those: `Resync.dfy` (what a catalog
  snapshot does), `Counters.dfy` (the anti-flapping machine of one check), `Batches.dfy` and `BatchLaws.dfy` (fetch, revert,
  transaction, retry), `Results.dfy` (what one result does), `Runs.dfy` (whole runs, projected to one check), `Driver.dfy`
  (the class makes those runs), `Refinement.dfy` (batching against writing at once), `Quiet.dfy` (what catalog and batcher
  together say when nobody interferes), `WriteBacks.dfy` (write-backs of outputs) and `Healing.dfy` (the catalog catches up).
* **Leader** (`leader.go`): `Leader.dfy`. Round robin, and a KV tree rewritten in chunks any of which may fail.
* **Pings** (`coordinate.go`): `PingCycle.dfy` (order and pace), `NodeProbe.dfy` (what a ping reports, and reaping by several
  agents), `FailureClock.dfy` (what a node's clock in the KV store says).
* **Instances** (`agent.go`): `Ownership.dfy`. From a KV list to running checks, and sole ownership end to end.

`Store.dfy` is the environment contract: a world of entries with modify indices and a history; reads; atomic transactions in
which a compare-and-set of an absent entry, or with another index, fails; a script of what the outside does before each
request (any writes of others) and to it (answered, request lost, reply lost, refused). Nothing is assumed of the script
except where a statement says so: `script == []` means that nobody interferes any more. One thing about the server is left
open: whether a compare-and-delete of an absent KV key fails or counts as done (`lenientDelete`).

## What turned out not to hold

Each of these is a lemma with an input, or with an exact condition.

* Sole ownership fails when an instance finds no check of its own: it does not resync, and goes on running what it had
  (`agent.go:846-856`). It fails too when an instance that the leader does not count still finds a check, or has one running:
  without an entry in the tree it keeps its old list (`agent.go:744-749`). `Ownership.SoleOwnership` has the exact condition
  over all instances there are; `Ownership.BothRunIt` and `Ownership.UncountedRunsItToo` have two running the same check.
* A definition with two of HTTP, TCP and GRPC leaves a stopped probe behind, which can later be taken for the right one while
  the wrong one runs (`Resync.EntryKeepsOrder`, `Resync.TwoKindsEndWrong`), until the address changes
  (`Resync.ChangedAddressRepairs`).
* A header added to a definition goes unnoticed (`Definitions.OneSidedComparison`, `Definitions.AddedHeaderIsMissed`).
* A result that fills a batch processes it with the lock of its own check held; if that reverts the check, the call waits for
  itself for ever (`check.go:507-508`, `check.go:586`, `batcher.go:74-79`, `check.go:1006`). `Results.WhenACallBlocks` has the
  condition that can be told before the call: outside it the call returns whatever happens, inside it another writer can
  make it wait. `Results.CallsDoBlock` has the server out of reach do so.
* A stale index retries only the updates named in the errors. `BatchLaws.AfterAStaleIndex` says exactly which updates of that
  transaction are written and which reverted. The rest are forgotten: those not named (`BatchLaws.UnnamedAreForgotten`), and
  those whose retry cannot be read or gets lost (`BatchLaws.LostRetryIsForgotten`). Only a later resync repairs it
  (`Healing.Heal`).
* A rejected retry also reverts an update that has no old state, and leaves the check with an empty status
  (`check.go:904-909`, unlike `check.go:988`): `BatchLaws.RetryErasesState`, `BatchLaws.MeddlingErasesState`.
* The write-back of an output is not called off when the status changes (`check.go:550-569`). Whenever it goes off, before
  the change is flushed or after, the catalog goes back to the old status while the change is no news any more:
  `WriteBacks.LateWriteBack` is such a run, `WriteBacks.WhenAWriteBackAgrees` has the exact condition.
* Without agents and without a batcher a failed push is not noticed (`Results.FailedPushIsNoticed`).
* A check that passes again with a known output keeps its critical time, so its service may still be deregistered
  (`Counters.WhatClears`, `Counters.PassingButStillRecorded`).
* The two counters are the documented one only if a result brings no new output for the current status
  (`Counters.RefinesOneStep`).
* The comment in `handleCheckUpdate` says that updates after a shutdown are dropped; `Stop` sets the batcher to nil, so they go
  to the catalog at once (`Runner.CheckRunner.StopBatcher`, `Runner.CheckRunner.HandleCheckUpdate`). The model follows the code.
* A failure clock that cannot be read is taken for absent, and restarted or left behind (`FailureClock.UnreadClockGoesWrong`;
  `FailureClock.WhenTheClockGoesWrong` says exactly when). A lost reply makes the debounce hide a node that fails again
  (`FailureClock.LostReplyHidesFailure`; `FailureClock.WhenKnowledgeIsLost` says which pings do that). If the server takes
  the deletion of an absent key for done, a node that another agent has just found alive may be reaped
  (`NodeProbe.LenientServerReapsRecovered`, a run of two agents).
* Node names with slashes, or check ids with slashes, make hashes collide (`Keys.HashCollision`); service ids do not matter
  (`Keys.HashInjective`).

## Model

| member | source | states |
|---|---|---|
| Keys.MakeCheckKeyInjective | batcher.go:141-143 | with slash-free node names a batch key stands for exactly one node and check id |
| Keys.HashInjective | check.go:1017-1022 | with slash-free node names and check ids a hash stands for exactly one check, whatever the service id |
| Keys.HashDeterminesNode | check.go:1017-1022 | with slash-free node names a hash names its node |
| Keys.HashCollision | check.go:1017-1022 | otherwise a node check and a service check can share a hash while their batch keys differ |
| Keys.LookupDropsPrefix | check.go:725 | the catalog is asked for what follows the node's name and a slash, if the check id starts with these |
| Definitions.OneSidedComparison | check.go:282-294 | headers taken for equal are equal exactly when the new ones add none |
| Definitions.AddedHeaderIsMissed | check.go:282-294 | a header added to none is not noticed |
| Definitions.DecorationIsInvisible | check.go:280-294 | headers that the library itself puts in never make a difference |
| Definitions.WhenAChangeGoesUnnoticed | check.go:249-258 | a newer definition leaves a probe alone exactly if it says the same of all that a probe of that kind uses, but for headers only added, and of the time until deregistration |
| Store.CasFoundItsIndex | check.go:626-660 | in a transaction that commits, each compare-and-set found its entry with the index it carries, before the whole |
| Store.TxnStaysGood | check.go:605-666 | any transaction of operations made from reads, whatever becomes of it, keeps a history in which every committed compare-and-set replaced the very version read, untouched in between, changed only status and output, and brought back nothing absent (plain sets, which the pings send, are not bound by it) |
| Store.SubmitEdits | check.go:643 | no lost write: a transaction of compare-and-sets of checks made from reads, whatever becomes of it, commits nothing but such justified edits |
| Store.EditsCompose | check.go:605-666 | and so do several in a row |
| Batches.PushEdits | check.go:605-660 | reading and writing back one check, whatever happens in between, commits nothing but a justified edit of a check |
| Batches.GatherEdits | check.go:690-707 | fetching commits nothing |
| Store.CommitIsJustified | check.go:737-745 | the same for one commit |
| Store.CurrentCasesSucceed | check.go:720-760 | compare-and-sets with current indices succeed together and change nothing else |
| Store.Consul.Txn | check.go:643 | a request, as the script has it, keeps all this |
| Counters.StaysBounded | check.go:511-535 | counters stay within 0 and their thresholds, over any run |
| Counters.AcceptedArePaidFor | check.go:511-535 | accepted updates of a sort times threshold + 1, plus the counter, never exceed the results of that sort, with resyncs, reverts and restarts anywhere in the run |
| Counters.AccountBalances | check.go:511-535 | the exact account of each counter over any run without restarts: what was counted before and the new results make up what accepted updates have cost, what repeats have taken back, and what is counted now |
| Counters.RepeatsTakeBack | check.go:518-519 | n repeats of the known status and output leave each counter at its value less n, or zero |
| Counters.AlternatingIsNotAccepted | check.go:518-535 | a new output that keeps alternating with the known one is never accepted, if the threshold is not zero |
| Counters.CatchesUp | check.go:523-535 | from any counter value, threshold + 1 equal results with a new status are enough, and fewer than are missing are not |
| Counters.CriticalTimeIsSpellStart | check.go:513-517 | over any run the recorded time is that of the first critical result of the current spell, never overwritten; none is recorded exactly when all were cleared |
| Counters.PassingButStillRecorded | check.go:511-521 | a check may pass for any number of results and still be recorded as critical |
| Counters.RefinesOneStep | check.go:511-535 | one result moves the two counters as the documented counter moves, exactly when it brings no new output for the current status |
| Counters.RefinesWholeRuns | README.md:381-392 | with output a function of status the two counters simulate the documented one over whole runs, flipping on the same results, the other counter zero |
| Resync.EntryKeepsOrder | check.go:200-225 | one entry keeps one running probe per check, of its kind, exactly when it does not fill the field of the old kind as well |
| Resync.ResyncKeepsOrder | check.go:399-489 | with single-kind definitions a resync leaves exactly the listed checks tracked, each with exactly one probe, of its kind and running |
| Resync.TwoKindsEndWrong | check.go:200-225 | with two kinds the right probe can end up stopped and the wrong one running |
| Resync.ChangedAddressRepairs | check.go:200-225 | a change of the address ends that: the right probe starts anew and the wrong one is gone |
| Resync.FirstFieldDecides | check.go:428-437 | a check runs as the first of HTTP, TCP and GRPC that its definition fills, at the address given for that |
| Resync.WhatIsTracked | check.go:412-460 | tracked after a resync are exactly the listed checks with something to probe, but for the pings' own |
| Resync.ResyncSettles | check.go:228-308 | after a resync each check is tracked as listed, counters are kept, and each probe has, value by value, the address, method, TLS settings and timeout of its definition, and its interval, 30 seconds if none is given, but not less than the minimum |
| Resync.ResyncIsIdempotent | check.go:249-261 | a second resync with the same list starts and stops nothing and keeps counters and critical times |
| Resync.DecorationKeepsSettled | check.go:280-294 | nor does the library's writing into the header maps change that |
| Probes.ProbeTable.StopExistingChecks | check.go:200-225 | stops the probe in the first map that has the hash, and removes it only if its field is empty now |
| Probes.ProbeTable.UpdateCheckHTTP | check.go:228-278 | keep, replace or start an HTTP probe, as the value function says; nothing strays if what is replaced was stopped |
| Probes.ProbeTable.UpdateCheckTCP | check.go:296-337 | the same for TCP |
| Probes.ProbeTable.UpdateCheckGRPC | check.go:344-395 | the same for GRPC |
| Probes.ProbeTable.OrderMeansLive | check.go:407-483 | when each check has its one probe, the started and not stopped probes are exactly those in the maps |
| Probes.UpdatedMapsAreUpdatedProbes | check.go:249-277 | the three maps taken together change as one map of probes |
| Runner.CheckRunner.UpdateChecks | check.go:399-489 | the maps become the resynced ones; with single-kind definitions the live probes are exactly those in the maps; the invariant stays |
| Batcher.CheckUpdateBatcher.Add | batcher.go:56-90 | queued once per check; a full batch is handed over at once and otherwise a timer runs |
| Batcher.CheckUpdateBatcher.Flush | batcher.go:94-99 | everything pending is handed over, and nothing else |
| Batcher.CheckUpdateBatcher.Stop | batcher.go:132-138 | nothing is pending afterwards, and all that was ever added has been written as if at once |
| Batcher.BatchWritesPending | batcher.go:101-122 | a batch in any order writes what is pending |
| Batcher.AddIsAccounted | batcher.go:60-69 | batches handed over, then what is pending, have the same last value per check as all additions |
| Refinement.BatchingRefinesPushing | batcher.go:56-99 | with nobody interfering a batch leaves the catalog as pushing every update at once would |
| Batches.RevertAllReverts | check.go:986-1015 | a revert of a batch brings back exactly the old states of its checks |
| Batches.FailedIsReverted | check.go:781-817 | a transaction that is lost, refused or answered with errors none of which is a stale index leaves every check of it with its old state; one known to have succeeded changes nothing locally |
| Batches.RetryOnlyReverts | check.go:842-918 | retries change local states only by reverts |
| Batches.ChunksCut | check.go:724-759 | transactions hold the kept updates in order, all but the last exactly 64 |
| BatchLaws.TransactionsHoldTheKept | check.go:720-760 | and operation i of each is that of its update i |
| BatchLaws.EachInOneWay | check.go:690-734 | each update is reverted, skipped or sent; in two ways exactly if one fetch of its node failed and another did not |
| BatchLaws.BothWays | check.go:690-734 | which does happen: two updates of one node are reverted for the first fetch, and sent after the second |
| BatchLaws.FailureIsNoticed | check.go:781-817 | so after a whole batch, whatever its other transactions do: the checks of a transaction that failed like that, or of a node that could not be fetched, have their old states back, and the failed result is news again |
| BatchLaws.AfterAStaleIndex | check.go:826-919 | of a transaction undone by a stale index, whatever the outside does, an update is written exactly if a stale error names it and its retry is applied, and reverted exactly if one names it and its retry is answered with errors |
| BatchLaws.UnnamedAreForgotten | check.go:798-801 | so an update that no error names is neither written nor reverted |
| BatchLaws.LostRetryIsForgotten | check.go:857-860 | nor is a named one whose retry cannot be read |
| BatchLaws.RetryErasesState | check.go:904-909 | a retry empties a check's status and output exactly if it is rejected and the update has no old state |
| BatchLaws.MeddlingErasesState | check.go:904-909 | and another writer of the check, always quicker, gets it rejected |
| BatchLaws.SlashFreeIDsSeparate | check.go:1017-1022 | updates of different checks with slash-free ids never share a hash |
| BatchLaws.QuietBatchIsWritten | check.go:670-760 | with nobody interfering a batch writes every update whose check exists, changes and creates nothing else, and reverts nothing |
| BatchLaws.UnreachableNeedsLock | check.go:709-718 | with the server out of reach every update of a batch is reverted, whosever lock that takes |
| Runner.CheckRunner.PushCheck | check.go:605-660 | read, edit and compare-and-set one check; nothing but justified edits is committed (so in every row of this class that sends) |
| Runner.CheckRunner.RevertCheckState | check.go:998-1015 | the old state comes back; blocks exactly if the caller holds that check's lock |
| Runner.CheckRunner.RevertAllUpdates | check.go:986-994 | all updates with an old state are reverted; blocks exactly if that needs a held lock |
| Runner.CheckRunner.RetryFailedBatchOperations | check.go:826-919 | each position named by a stale error is retried once, in some order |
| Runner.CheckRunner.ExecuteBatchTransaction | check.go:763-823 | one transaction, and revert, retry or neither, by its answer; every check of a lost or plainly failed one has its old state back |
| Runner.CheckRunner.FetchNodes | check.go:690-707 | each node is fetched until an answer comes |
| Runner.CheckRunner.SendKept | check.go:720-760 | the kept updates are sent in the transactions that `Chunks` says |
| Runner.CheckRunner.ProcessBatchedUpdates | check.go:670-760 | the whole batch, and exactly when it blocks; even then all that was committed are compare-and-sets of checks, each replacing the very version read, so that no write of another is lost |
| Runner.CheckRunner.HandleCheckUpdateImmediate | check.go:605-666 | the local state follows exactly a push known to have succeeded |
| Runner.CheckRunner.HandleCheckUpdate | check.go:592-601 | queued if there is a batcher, pushed at once otherwise |
| Runner.CheckRunner.JudgeResult | check.go:511-545 | the counters and the critical time move as in the single-check machine |
| Runner.CheckRunner.UpdateCheck | check.go:501-587 | a result is counted, deferred or pushed as `Resulted` says; one that says what is known takes both counters back by one and sends nothing; the invariant stays, even when the call blocks |
| Runner.CheckRunner.FireDeferred | check.go:562-567 | the write-back of an output uses the values and the object captured when it was armed, however old, and holds no lock |
| Runner.CheckRunner.FlushPending | batcher.go:94-99 | everything pending is processed |
| Runner.CheckRunner.StopBatcher | check.go:188-193 | a last flush; later updates find no batcher |
| Runner.CheckRunner.Stop | check.go:188-198 | and every probe in the maps stops |
| Results.ResultsKeepOrder | check.go:501-587 | a result keeps counters in bounds, critical times to tracked checks, and only news pending |
| Results.WhenACallBlocks | check.go:507-586 | some behaviour of the outside makes a result's call wait for its own lock if and only if the check is tracked, the result is accepted as more than a change of output, and its update fills the batch |
| Results.CallsDoBlock | check.go:507-586 | the server out of reach is such a behaviour, if the check has an old state |
| Results.FailedPushIsNoticed | check.go:579-586 | a push that did not succeed makes the same result news again exactly in a runner with agents |
| Results.FailedFlushUndoes | check.go:540-587 | a change of status that was queued and whose transaction fails, or whose node cannot be fetched, leaves the check in the state before the result |
| Runner.CheckRunner.ReapServicesInternal | check.go:936-982 | every attempt is for a tracked check critical for longer than its timeout; after a success none for the same service; for every check due throughout the pass there is one for its own sake, or its service is known to be gone |
| Runs.HandlingIsBackground | check.go:562-567 | a write-back moves no counter and no critical time, whatever becomes of the batch it may fill |
| Driver.Drive | check.go:399-587 | whatever lists, results, timers, flushes and stops come to a runner, in whatever order: its states make a run; all it commits are justified edits of checks; a write-back once armed stays armed until its timer goes off; and with single-kind definitions the live probes are in the end those in the maps |
| Driver.StepKeepsProbes | check.go:399-489 | only a list changes which probes ought to run |
| Runs.RunProjects | check.go:399-587 | every run of the runner is, for each check, a run of the single-check machine |
| Runs.RunnerDoesNotFlap | check.go:511-535 | the anti-flapping bound, over whole runs of the runner |
| Runs.ReapedForItsSpell | check.go:936-982 | in the runner the time a deregistration counts from is that of the first critical result of a spell in which no non-critical result was accepted |
| Quiet.HandlingSays | check.go:592-601 | with nobody interfering, an update, be it pushed, queued or the one that fills a batch, changes what catalog and batcher together say of its own check only, and never blocks |
| Quiet.FlushSays | check.go:670-760 | a flush makes the catalog say what was pending, whatever others made of it before, and changes no local state |
| Quiet.ResultSays | check.go:501-587 | a result changes its own local state, and what is said of its own check if it is sent, and nothing else |
| Quiet.AcceptedIsNoNews | check.go:552-586 | an accepted result that was put off, or reached the catalog, or came to a runner without agents, is no news when it comes again |
| WriteBacks.WriteBackWins | check.go:562-567 | a write-back and a flush leave the catalog with what it was armed with, whatever was pending |
| WriteBacks.WhenAWriteBackAgrees | check.go:550-569 | whenever it goes off, catalog and local state agree on the status afterwards if and only if it was armed with the status that the check has now, or it is pushed at once through the tracked object and the local state follows it |
| WriteBacks.FireAndFlush | check.go:562-567 | the same of the runner, for any armed write-back at any time |
| WriteBacks.LateWriteBack | check.go:550-569 | a new output is put off, the status changes, the change is flushed or not, the timer goes off: the catalog has the old status, and the same result is no news |
| Healing.ResultConverges | check.go:511-601 | one more equal result brings the check one step nearer, or keeps what is said of it |
| Healing.OtherResultConverges | check.go:501-587 | a result of another check does not set it back |
| Healing.Heal | check.go:399-601 | from any state, a resync, more equal results than the threshold and a flush leave the catalog with the new status and output, whatever flushes, stops, results and write-backs of other checks come before, between and after them |
| Leader.NodeLists | leader.go:114-136 | the two maps hold the round-robin shares |
| Leader.ShareIsRoundRobin | leader.go:121-134 | a share is exactly the positions of the instance with that probe flag, in order, once each |
| Leader.NodeIsAssignedOnce | leader.go:121-134 | every node is in exactly one list, as a probe exactly if flagged, and once |
| Leader.LoadsAreBalanced | leader.go:121-123 | the loads of two instances with distinct ids differ by at most one |
| Leader.SortedListIsCanonical | leader.go:277-279 | two leaders that see the same nodes compute the same order |
| Leader.KvStore.CommitOps | leader.go:138-146 | true exactly when the transaction was applied and acknowledged |
| Leader.CommitsMeans | leader.go:189-225 | a pass for n instances makes one transaction for every 64 of its n + 1 operations, and a last one |
| Leader.RewriteLists | leader.go:189-231 | a pass commits only prefixes of its assignment; it succeeds, and has then committed all of it, exactly if each of its transactions is acknowledged |
| Leader.WakeUp | leader.go:166-231 | a retry that is not due does nothing; anything else that wakes the leader makes a pass, if there is an instance, and arms a retry exactly if there is none or the pass fails |
| Leader.ComputeWatchedNodes | leader.go:151-240 | over any wake-ups and failures every committed tree is a prefix of one assignment and disjoint; with no retry pending it is the latest assignment; and none is pending, if there are instances, when no transaction fails, or when there are more retries in the end than transactions that fail |
| Leader.PrefixIsDisjoint | leader.go:202-225 | in such a tree no node is on two lists or twice on one |
| Ownership.FormatNodeLists | agent.go:758-767 | all listed nodes are health-checked, the probes pinged |
| Ownership.GetHealthChecks | agent.go:900-913 | exactly the checks of these nodes, but for the pings' own, in order |
| Ownership.HealthWatcher.ReadNodeList | agent.go:736-767 | without an entry the old list stays |
| Ownership.HealthWatcher.Poll | agent.go:846-859 | a resync, unless there is no node or no check |
| Ownership.RunsItsDuty | agent.go:846-859 | after a poll an instance runs exactly the checks of its nodes if and only if it found some or had nothing running |
| Ownership.FallsSilent | agent.go:744-749 | an instance without an entry runs nothing afterwards if and only if the list it keeps has no check any more and it had nothing running |
| Ownership.SoleOwnership | leader.go:189-231 | after a committed pass every check on an external node runs in exactly one of all instances, counted or not, and nothing else runs, if and only if every counted instance found some check of its own or had nothing running, and every other one found none and had nothing running |
| Ownership.UncountedInstanceKeepsItsNodes | agent.go:744-749 | an instance without an entry keeps its nodes |
| Ownership.UncountedRunsItToo | agent.go:744-749 | so it may run the same check as the new owner |
| Ownership.BothRunIt | agent.go:846-856 | two counted instances run the same check |
| PingCycle.ShuffleNodes | coordinate.go:128-133 | a permutation, in place |
| PingCycle.TicksFillInterval | coordinate.go:137-144 | one wait per node adds up to the update interval, short of it by less than a nanosecond a node |
| PingCycle.AnyWindowIsFair | coordinate.go:61-69 | any n consecutive ticks over n nodes select each exactly once |
| PingCycle.CoordUpdater.Tick | coordinate.go:61-91 | the index is in bounds, and the last n selections are all the nodes |
| PingCycle.CoordUpdater.NewNodes | coordinate.go:48-59 | a new list restarts the cycle and the ticker |
| NodeProbe.NodesAreReapedSafely | coordinate.go:231-277 | however pings of several agents overlap and others interfere: a node is deleted only for a clock that had run out, and neither clock nor node was touched since it was read |
| NodeProbe.LenientServerReapsRecovered | coordinate.go:243-271 | two agents have read a clock that has run out, one finds the node alive and clears it, the other reaps the node after all, if and only if the server takes the deletion of an absent clock for done |
| NodeProbe.NodeProber.StartPing | coordinate.go:80-90 | a ping starts exactly if none to the node is in flight |
| NodeProbe.NodeProber.RunNodePing | coordinate.go:95-125 | one ping, with whatever answers, keeps that history safe |
| NodeProbe.NodeProber.UpdateHealthyNode | coordinate.go:147-189 | a debounced recovery clears the clock with the status |
| NodeProbe.NodeProber.UpdateFailedNode | coordinate.go:192-282 | a debounced failure starts the clock, keeps it, or reaps |
| NodeProbe.NodeProber.CheckNodeTracking | coordinate.go:446-474 | what is remembered of nodes that the previous list did not have is forgotten |
| FailureClock.PingMovesClock | coordinate.go:169-230 | with a readable clock a recovery clears it, a first failure starts it, a later one leaves it alone, whatever becomes of the transaction |
| FailureClock.ClockIsSpellStart | coordinate.go:214-230 | over any run the clock is there exactly while the committed status is critical and says since when |
| FailureClock.QuietPing | agent.go:985-1001 | with nobody interfering, a ping whose result is new, or was remembered for the refresh interval, is applied and remembered: the catalog has its result, and the clock is cleared, started or kept, or, if it had run longer than the reconnect timeout, the node is gone |
| FailureClock.DebouncedPing | agent.go:985-1001 | before that, a ping with the remembered result sends nothing but the read of the clock |
| FailureClock.OrphanedClockGoes | coordinate.go:243-277 | a clock that has run out is deleted even if its node is no longer registered |
| FailureClock.HiddenFailureComesOut | agent.go:985-1001 | a failure that a lost reply hides comes out with the first failing ping at the refresh interval |
| FailureClock.WhenTheClockGoesWrong | coordinate.go:95-120 | with whatever answers, a ping moves the clock rightly exactly if it could read it, or the node was not failing, or nothing was sent, or that was not applied (or the node began to fail at that very time) |
| FailureClock.UnreadClockGoesWrong | coordinate.go:99-102 | a clock that cannot be read is restarted, or left behind a passing check |
| FailureClock.DebounceHidesNothing | agent.go:985-1001 | with no lost replies a ping that is not acted on says what the catalog says |
| FailureClock.WhenKnowledgeIsLost | agent.go:985-1001 | a ping makes the agent lose track of the committed status exactly if it sends another status than the one remembered, that is applied, and the reply is lost |
| FailureClock.LostReplyHidesFailure | agent.go:985-1001 | after a lost reply a failing node is reported as passing until the memory expires |

## Left out

- HTTP, TCP, gRPC and ICMP probing and Consul's status handler: libraries; results are arbitrary inputs.
- Network coordinates, sessions, locks, leader election, TTL registration: one leader at a time is assumed.
- HCL, telemetry, version checks, metrics, logging, JSON and gob: thresholds are non-negative numbers, KV values typed.
- Concurrency inside one process: each handler of a result, timer or list is one step, except that a handler may wait for a
  lock it holds itself. Other writers come between any two requests. Overlapping pings are interleaved.
- Namespaces and partitions: one of each. Catalog entries are keyed, so a node has no two checks with one id.
- Runner.CheckRunner.ReapServicesInternal: does not change the modelled catalog; a deregistration shows up as a write of
  another, and its answers and the readings of the clock are parameters.
- Runner.CheckRunner.FireDeferred: does not say when the timer goes off; the random delay is not modelled, so it may be any time.
- NodeProbe.NodeProber.UpdateFailedNode: has no clock value that cannot be decoded, because KV values are typed.
- PingCycle.CoordUpdater.Tick: does not model the sleep when there is nothing to ping.
- Tracking.CheckMap.Write: sets the four mutable fields of a check at once where the code sets them one by one under its lock.
- Healing.Heal: says nothing if another writer comes between, or another list, another result of the same check, or a
  write-back of it (which may undo it: WriteBacks.LateWriteBack); it starts from a list that agrees with the catalog.
  Results and write-backs of other checks may come only if none of these is the same check under another service.
  It and Refinement.BatchingRefinesPushing take node names without slashes.
- Refinement.BatchingRefinesPushing: check ids do not start with their node's name and a slash (nor do they in Healing.Heal),
  because the catalog is then asked for another id (`check.go:725`).
- Probe objects replaced while running (definitions of two kinds) are not followed once they are out of the maps.
