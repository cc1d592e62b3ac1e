# Verification model of nerdit's control plane

A Dafny model of the parts of nerdit in which several things happen at once to one service: the
health-gated cutover, the build and release gate, the git poller, the retention sweep, the webhook
cursor, the boot reap and the event recorder; and of the algorithms whose promise is about every
input: the import-cycle scan, the Node version ranges and their parser, the scrubbing of secrets,
service labels and configuration staging. `dafny verify dfyconfig.toml` checks all of it.

## How it is organised

- `CutoverMachine`, `CutoverMarker`, `CutoverSafety`, `CutoverProperties`, `CutoverRecovery`: one
  service's cutover as a state machine with one step per awaited operation. Crashes, container deaths,
  proxy ticks, launches, redeploys, rollbacks and cancels may come between any two. `CutoverMarker` is
  the invariant of row, marker and containers over every run; `CutoverSafety` adds where the pointer
  stands, for which some redeploys must be excluded. `CutoverManager` is the manager's own sequential
  code, proved to produce the closed forms that are runs of the machine.
- `ReleaseMachine`, `ReleaseSafety`, `ReleaseProperties`: builder task, swap gate and settle, in the
  same style. `AppImages` is the builder's own code. `DeployState` is the phase writer.
- `Graphs`, `ImportCycles`, `ImportEdges`: reachability, Tarjan's algorithm on its own variables, and
  the walk over syntax trees that builds the edges.
- `GitWatchMachine`, `GitWatchProperties`, `GitWatch`: the poller's machine, its invariants, and the
  controller's registries updated in place.
- `Retention`, `Notify`, `Sweeper`: loops with awaits. A script says what other tasks do during each
  await and whether it raises or the daemon dies there, so one contract speaks of every cut.
- `NodeRanges`, `NodeSyntax`, `NodeRuntime` (over `Texts`), `SecretScrub`, `EventLog`,
  `ProjectIdentity`, `ConfigStore`: one module each.

## What the environment is assumed to do

- Cutover: container ids are fresh; a redeploy takes the next version above the high-water mark and
  drops the marker; a cancel comes while a verify task is registered and does not overlap the tick's
  own work on the row; stopping a container succeeds. Layer 1 of the tick makes tick, verify task and
  cancel exclusive, so one program counter per service is enough. A redeploy or rollback may land at
  any await, a registered verify's included: the 409 that refuses it is checked awaits before the
  write, so what is left at the write is the guard on the marker's presence.
- Release: image tags are `repo:<generation>`; a redeploy reads and writes the row in one step; a
  rollback is refused while a release holds its slot. The permitted runs of the safety theorem are
  those whose redeploys do not land on a live generation that owes its release, whose rollbacks do not
  land on a generation that owes its release nor leave a live one that does for an image that was never
  built, and whose ticks, where they start something, do so on a snapshot whose marker still tells:
  as the row's does while the row has its image, and otherwise what that image owes now, under a row
  that owes nothing. The row may have been redeployed or rolled back in between. Each of these has its
  exact condition or its counterexample below. Over a row whose rollback target is unsound one more is
  assumed of such a snapshot: it tells the row's container and need for a build.
- Poller: a service is identified by its name; time is a monotone clock.
- Retention and webhooks: ids only grow and rows are never edited; an audit row leaves the table only
  through this sweep; the anchor callback is always given, as its one caller does.
- Boot reap: container ids are fresh; a slot is claimed once and starts at most one container.
- Event recorder: records are sequential and its clock never runs backwards.

## Where the code does less than its documentation says

- The guarded redeploy write is meant to be safe over a stale cutover marker. It is not when the
  crash came between the pointer write and the commit point (`RedeployOverAStaleMarkerStrandsBlue`).
  The check that no verify is running does not keep it off a live marker either, when the request came
  between the marker write and the task registration (`RedeployUnderTheVerifyStrandsBlue`);
  `DroppingTheMarkerIsSafeExactlyWhen` is the exact condition. Over a marker that is past the commit
  point it can lose the promotion's audit row and event (`CrashThenRedeployLosesRecords`), exactly
  when: `DroppingTheMarkerKeepsRecordsExactlyWhen`.
- The release gate decides on the tick's snapshot. A snapshot older than the marker, or than its
  removal, decides wrongly (`StaleSnapshotReleasesAFailedRelease`, `StaleSnapshotSettlesAGoodRelease`,
  `StaleSnapshotReleasesARevertedCandidate`), although the marker is cleared before the task ends so
  that no such window should exist.
- A plain deploy is not refused while a release runs. It then records the unmigrated image as rollback
  target, and its own failure reverts to that image without a marker (`UnsafeRedeployOpensTheGate`).
- The rollback that recovers a wedged generation takes its target for built. When two redeploys came
  before the first build it is not, and the failed build brings the unmigrated image back without a
  marker (`UnsafeRollbackOpensTheGate`, `UnsafeRollbackIsReachable`).
- A rollback pops the release marker of the generation it lands on. When that generation's own release
  failed, the gate then releases its unmigrated image (`RollbackOntoAnOwingGenerationOpensTheGate`).
- The version compare-and-set of the settle is defeated by a redeploy and a rollback between its read
  and its write (`RollbackInsideASettleReusesAVersion`).
- The event sweep prunes without looking at webhook cursors, so an event ahead of a cursor can be
  passed without delivery or audit (`PrunedEventIsPassedOver`, exactly when: `SweepThenDrain`).
- A scan that read the rows before a service became a candidate prunes a re-nudge that came since
  (`StaleScanDropsARenudge`).
- Scrubbing leaves a value in place on some lines when it starts or ends with a star or holds three in
  a row (`ScrubIsReliableExactlyWhen`).
- The import scan skips a type-checking `if` with everything in it, its `else` branch included, although
  the imports there do run (`ElseImportsAreMissed`, exactly when: `ScanSeesWhatRunsExactlyWhen`).
- A completed poll remembers the commit a nudge named as handled, whatever commit it saw deployed or
  shipped; it remembers its own exactly when the nudge named that one (`CommitRecordsTheHint`).

## Model

| member | source | states |
|---|---|---|
| `CutoverSafety.PointerNamesTheServingContainer` | src/nerdit/core/cutover.py:366-380 | over every run of cutovers, launches, cancels, deaths and crashes between any two awaits, with redeploys and rollbacks wherever they strand nothing: unless an uncommitted marker names the row's version, the effective port is the one the row's running container was started on, and while one does, the marker holds the way back to blue's port |
| `CutoverMarker.StepKeepsMarker` | src/nerdit/core/cutover.py:597-712 | every awaited step of every actor, redeploys and rollbacks at any await included, keeps the invariant tying row, marker, containers, green's port and program counter together |
| `CutoverMarker.RunKeepsMarker` | src/nerdit/core/cutover.py:273-323 | that invariant holds after any run whatever |
| `CutoverSafety.StepKeeps` | src/nerdit/core/cutover.py:597-712 | every awaited step of every actor keeps that invariant and where the pointer stands against it, as long as redeploys and rollbacks land where they cannot leave the pointer behind |
| `CutoverSafety.RunKeeps` | src/nerdit/core/cutover.py:273-323 | so both hold after any run whose redeploys and rollbacks do |
| `CutoverProperties.CommitPointIsVisible` | src/nerdit/core/cutover.py:683-697 | over every run: while a matching marker is armed, the row names blue exactly when the commit point f3 has not run |
| `CutoverProperties.CutoverSparesTheServingContainer` | src/nerdit/core/cutover.py:871-977 | over every run no step of arm, verify, commit, unwind, settle, recovery or cancel stops the container the row names |
| `CutoverProperties.BlueOutlivesTheMarker` | src/nerdit/core/cutover.py:695-712 | over every run blue is stopped only after no marker names the row's version any more |
| `CutoverProperties.PromotionFollowsThePointer` | src/nerdit/core/cutover.py:640-697 | over every run the row is moved to green only once the pointer already is green's own port |
| `CutoverProperties.DroppingTheMarkerIsSafeExactlyWhen` | src/nerdit/db/queries/service_config.py:153-186 | some run after a redeploy or rollback ends with nobody at work, the pointer off the serving container and no marker telling the way back, if and only if the write landed while one was serving and either on a verify that has yet to write the pointer, its green alive if it is being probed, or over a matching marker of an uncommitted generation that had moved the pointer |
| `CutoverProperties.RedeployOverAStaleMarkerStrandsBlue` | src/nerdit/db/queries/service_config.py:175-178 | a concrete run in which the guarded redeploy write lands over a stale marker after a crash and leaves blue serving on a port the proxy is not told to dial |
| `CutoverProperties.RedeployUnderTheVerifyStrandsBlue` | src/nerdit/core/cutover.py:366-385 | from every safely reached state with blue serving and a verify that has yet to write the pointer, a redeploy or rollback and a crash after that write strand blue |
| `CutoverProperties.DeadContainerMayLoseItsPointer` | src/nerdit/core/launch.py:462-475 | why the pointer promise is about running containers: a launch clears the pointer before it records its container |
| `CutoverProperties.ProxyTickConverges` | src/nerdit/core/cutover.py:737-773 | one undisturbed proxy tick makes every bound route dial the row's running container when no uncommitted cutover is in progress |
| `CutoverProperties.ProxyTickHelpsTheRepoint` | src/nerdit/core/cutover.py:640-670 | over every run: because the pointer is written first, a proxy tick inside the verify window satisfies the awaited dials |
| `CutoverProperties.NoPromotionGoesUnrecorded` | src/nerdit/core/cutover.py:714-735 | over every run whose redeploys and rollbacks keep the records: a promoted container has had its audit row and success event attempted, or is still named by an armed marker that recovery will replay |
| `CutoverProperties.RecordsComeBeforeThePop` | src/nerdit/core/cutover.py:714-735 | online, in the crash replay and in a cancel, the step that removes a committed marker comes after the audit row and the event of the container the row names |
| `CutoverProperties.DroppingTheMarkerKeepsRecordsExactlyWhen` | src/nerdit/daemon/deploy_pipeline.py:1312-1320 | a redeploy or rollback leaves a promotion without its records if and only if it drops a matching marker while the row names another container than its blue and that one's audit row or event is missing; some run after it ends that way with nobody at work if and only if that is so or it landed on a verify that can still promote |
| `CutoverProperties.CrashThenRedeployLosesRecords` | src/nerdit/core/cutover.py:683-697 | from every record-keeping state before the commit point: a crash right after it and a redeploy before the next tick leave the promoted green without audit row and event |
| `CutoverProperties.CrashThenRedeployIsReachable` | src/nerdit/core/cutover.py:683-697 | the whole such run, from a row that has never cut over |
| `CutoverRecovery.OneTickRecovers` | src/nerdit/core/cutover.py:291-314 | over every run, one undisturbed tick after a crash leaves no marker; f3 alone decides between a promoted generation with its records and a failed one with blue named, the pointer its marker held, its green reaped and its image reverted; where redeploys and rollbacks stranded nothing, the container named is dialled |
| `CutoverRecovery.EveryCrashPointRecovers` | src/nerdit/core/cutover.py:877-930 | the same from a crash at any await of any run, with or without an orphaned green |
| `CutoverRecovery.CancelLeavesTheServiceServing` | src/nerdit/core/cutover.py:976-1062 | over every run a cancel at any await of the verify keeps the serving container, version and status, removes the marker and stops an unpromoted green; where redeploys and rollbacks stranded nothing, the proxy is pointed at the serving container |
| `CutoverRecovery.CancelRuns` | src/nerdit/core/cutover.py:1005-1062 | the closed form of the cancel is a run of the machine |
| `CutoverRecovery.RevertRuns` | src/nerdit/core/cutover.py:898-930 | the closed form of an uncommitted generation's recovery is a run of the machine |
| `CutoverRecovery.ReplayRuns` | src/nerdit/core/cutover.py:890-897 | the closed form of a committed generation's recovery is a run of the machine |
| `CutoverManager.AwaitDials` | src/nerdit/core/cutover.py:737-773 | succeeds exactly when one single snapshot names the port for every awaited route; every earlier snapshot failed before the deadline; terminates |
| `CutoverManager.ProbeGreen` | src/nerdit/core/cutover.py:540-595 | the verdict is the first decisive glance: passing, exited, or past the budget |
| `CutoverManager.GraceNeverTimesOutALiveGreen` | src/nerdit/core/cutover.py:558-575 | the widened budget cannot time out a live green without a health spec before its grace has passed |
| `CutoverManager.ListedOrphansAreReapable` | src/nerdit/core/cutover.py:932-974 | what the reap kills is what was listed, labelled and not the row's own container |
| `CutoverManager.CutoverManager.SettleCrashedCutover` | src/nerdit/core/cutover.py:877-930 | the in-place crash settle produces the closed form that is proved a run of the machine, and writes its stores in the promised order |
| `CutoverManager.CutoverManager.MaybeCutover` | src/nerdit/core/cutover.py:273-323 | the four layers of the tick's decision: a task in flight, a persisted marker before liveness, eligibility, arming |
| `CutoverManager.CutoverManager.CancelVerify` | src/nerdit/core/cutover.py:976-1062 | the in-place cancel produces the closed form and reports the green it destroyed |
| `CutoverManager.CutoverManager.ReapGreen` | src/nerdit/core/cutover.py:932-974 | the kill loop stops exactly the reapable orphans |
| `CutoverManager.CutoverManager.SettleFailedGeneration` | src/nerdit/core/cutover.py:836-869 | the version-guarded revert or terminal write |
| `ReleaseProperties.OnlyReleasedImagesAreSwappedIn` | src/nerdit/core/app_build.py:248-319 | over every permitted run the gate releases the swap only for an image that owes no release, and an image that owes one has its marker armed on the row |
| `ReleaseSafety.StepKeeps` | src/nerdit/core/app_build.py:555-627 | every awaited step of builder, tick, settle and environment keeps the invariant tying marker, owed releases and rollback target |
| `ReleaseSafety.RedeployKeeps` | src/nerdit/daemon/deploy_pipeline.py:1292-1330 | a redeploy that does not land on a live unmigrated image keeps the invariant |
| `ReleaseSafety.RollbackKeeps` | src/nerdit/daemon/routes/deploy.py:610-655 | a rollback, from a wedged generation too, keeps the invariant when its target owes no release and it does not leave a live owing generation for an image that was never built |
| `ReleaseProperties.PromptDispatchIsExact` | src/nerdit/core/app_build.py:311-319 | on the row as it is, layer 3 settles exactly the generations that owe a release and releases exactly those that do not |
| `ReleaseProperties.SnapshotDecidesRightlyExactlyWhen` | src/nerdit/core/app_build.py:311-319 | on any snapshot the decision is right if and only if its marker tells what its image owes now; while the row still has that image, if and only if snapshot and row agree on the marker |
| `ReleaseProperties.StaleSnapshotReleasesAFailedRelease` | src/nerdit/core/services.py:1839-1862 | a run in which a snapshot fetched before arming, whose turn comes after the release failed, releases the swap of the failed image |
| `ReleaseProperties.StaleSnapshotSettlesAGoodRelease` | src/nerdit/core/app_build.py:800-814 | a run in which a snapshot fetched during a release that then succeeds settles the good generation as failed |
| `ReleaseProperties.StaleSnapshotReleasesARevertedCandidate` | src/nerdit/core/app_build.py:311-319 | a run in which the row has already gone back to the live image, and a snapshot fetched before arming still releases the swap of the candidate whose release failed |
| `ReleaseProperties.RedeployIsSafeExactlyWhen` | src/nerdit/daemon/deploy_pipeline.py:1312-1328 | a redeploy keeps the gate's invariant if and only if the image it records as rollback target owes no release or no container of the row is left |
| `ReleaseProperties.UnsafeRedeployOpensTheGate` | src/nerdit/core/app_build.py:1119-1168 | from every other state, permitted steps alone (a crash, a failed build, prompt ticks) end with the gate releasing the unmigrated image, its marker gone |
| `ReleaseProperties.RollbackIsSafeExactlyWhen` | src/nerdit/daemon/routes/deploy.py:612-655 | a rollback, from a wedged generation too, keeps the gate's invariant if and only if its target owes no release and it does not leave an armed generation under a live service for an image that is not there |
| `ReleaseProperties.UnsafeRollbackOpensTheGate` | src/nerdit/daemon/routes/deploy.py:586-627 | from every state of the second exception, the failed build of the never-built image brings the unmigrated one back without its marker, and the gate releases it |
| `ReleaseProperties.UnsafeRollbackIsReachable` | src/nerdit/daemon/routes/deploy.py:582-586 | such a state is reached from a first deploy by permitted steps: two redeploys before the first is built, and a crash during the release of the second |
| `ReleaseProperties.RollbackOntoAnOwingGenerationOpensTheGate` | src/nerdit/daemon/routes/deploy.py:618-627 | from every state of the first exception, permitted steps alone end with the gate releasing the generation rolled back onto, whose release was armed and never succeeded |
| `ReleaseProperties.OwingRollbackTargetIsReachable` | src/nerdit/daemon/routes/deploy.py:582-586 | such a state is reached from a first deploy by permitted steps: its release fails, and a redeploy follows |
| `ReleaseProperties.SwapBesideAnOwingGenerationOpensTheGate` | src/nerdit/core/app_build.py:311-319 | why a row that has moved on must owe nothing: from every state in which an older image's swap is under way beside a generation that owes its release, with nothing serving, permitted steps end with the gate releasing that generation |
| `ReleaseProperties.SettleNeverTouchesANewerGeneration` | src/nerdit/core/app_build.py:1083-1107 | a settle interleaved at every await with redeploys, rollbacks onto any generation but its own target, restarts, stops and crashes leaves another generation's whole row as if it had not run |
| `ReleaseProperties.RollbackInsideASettleReusesAVersion` | src/nerdit/db/queries/service_config.py:219-264 | a redeploy and a rollback between the settle's read and its guarded write let the write land and set the version allocator back |
| `ReleaseProperties.ReclaimableMeansStripped` | src/nerdit/core/app_build.py:1145-1206 | the candidate tag is offered for removal only by the write that removed the build context and the release marker from a row still on that generation |
| `ReleaseProperties.RemovalNeverCausesABuild` | src/nerdit/core/app_build.py:891-917 | removing a reclaimed tag never makes the row need a build and never removes its image or rollback target |
| `AppImages.SettleRuns` | src/nerdit/core/app_build.py:1107-1256 | the settle's closed form is a run of the machine made of settle steps only |
| `AppImages.SettleFailsClosed` | src/nerdit/core/app_build.py:1039-1058 | after a settle of its own generation the row serves an image that owes no release with nothing left to build, or is failed with its marker armed exactly when it owes one |
| `AppImages.AppImageBuilder.SettleFailedGeneration` | src/nerdit/core/app_build.py:1014-1256 | the in-place settle produces that closed form and reports reclaimable exactly for the guarded revert that landed |
| `AppImages.AppImageBuilder.EnsureBuilt` | src/nerdit/core/app_build.py:248-319 | the three layers of the gate, with the crashed release settled in place |
| `AppImages.AppImageBuilder.ArmReleasePending` | src/nerdit/core/app_build.py:933-958 | true exactly when the marker is armed on the caller's own generation; otherwise nothing is written |
| `AppImages.AppImageBuilder.ClearReleasePending` | src/nerdit/core/app_build.py:960-976 | a newer generation's marker is never disarmed |
| `AppImages.AppImageBuilder.PruneOldImages` | src/nerdit/core/app_build.py:1328-1354 | a tag is removed exactly when it is neither the image nor the rollback target and at least three newer ones exist |
| `AppImages.NewestThree` | src/nerdit/core/app_build.py:1351-1351 | selects exactly the tags with fewer than three newer ones |
| `DeployState.NewerGenerationIsSparedExactlyWhen` | src/nerdit/core/deploy_state.py:85-93 | a stamp spares the metadata of a generation that landed between its read and its write if and only if it decided to write nothing, matched versions on a versioned deploy, or wrote what was there |
| `DeployState.Deploy.StampLastDeploy` | src/nerdit/core/deploy_state.py:37-93 | the read, its guards and the write in place: true exactly when the metadata was written, and a newer generation that landed in between is spared exactly so |
| `ImportCycles.CycleScan.Run` | scripts/import_cycle_scan.py:112-125 | the reports are exactly the strongly connected components of more than one module, each once, and the exit status is 0 exactly when the graph is acyclic |
| `ImportCycles.CycleScan.Connect` | scripts/import_cycle_scan.py:89-109 | one visit, with explicit stack, flags, indices and lowlinks: settled nodes are closed, everything left on the stack is anchored in an unfinished node, reports stay exact |
| `ImportCycles.CycleScan.Follow` | scripts/import_cycle_scan.py:94-99 | one successor: the lowlink stays the index of a reached node and bounds every edge back into the old stack |
| `ImportCycles.CycleScan.PopComponent` | scripts/import_cycle_scan.py:100-109 | the pop loop takes exactly the segment down to the node, clears its flags and reports it when it has several members |
| `ImportCycles.CycleScan.Leave` | scripts/import_cycle_scan.py:100-109 | a finished node closes its component or waits, anchored below itself |
| `ImportCycles.SegmentIsComponent` | scripts/import_cycle_scan.py:100-109 | when the lowlink is the node's own index, what stands above it on the stack is one maximal mutually reachable set |
| `ImportCycles.PopFinishes` | scripts/import_cycle_scan.py:100-109 | popping keeps the scan's invariant and what its caller needs |
| `ImportCycles.KeepFinishes` | scripts/import_cycle_scan.py:94-100 | keeping a node whose lowlink is smaller keeps them too |
| `ImportCycles.CompleteScanReports` | scripts/import_cycle_scan.py:116-125 | the invariant of a complete scan says the reports are exactly the cycles |
| `Graphs.CyclicIffMutualPair` | scripts/import_cycle_scan.py:107-108 | without self-edges a cycle exists exactly when two different nodes reach each other |
| `Graphs.ComponentsAreDisjointOrEqual` | scripts/import_cycle_scan.py:107-108 | components that share a node are equal |
| `ImportEdges.EdgesAreTheUnguardedImports` | scripts/import_cycle_scan.py:57-78 | a module has an edge exactly for an import statement outside every type-checking guard naming a target whose longest known dotted prefix is another module, deferred exactly inside a function |
| `ImportEdges.ScanSeesWhatRunsExactlyWhen` | scripts/import_cycle_scan.py:24-30 | every edge comes from an import that runs, and the scan misses none if and only if no `else` branch of a type-checking `if` leads where the rest of the module does not |
| `ImportEdges.EmptyElsesSuffice` | scripts/import_cycle_scan.py:24-30 | when those `else` branches are empty, which a reader can check, the scan has exactly the edges that run |
| `ImportEdges.ElseImportsAreMissed` | scripts/import_cycle_scan.py:62-66 | a module whose only import stands in such an `else` branch: the import runs and the scan has no edge |
| `ImportEdges.HomeIsLongest` | scripts/import_cycle_scan.py:69-71 | chopping from the right ends at the longest known dotted prefix, or at nothing when there is none |
| `ImportEdges.FindHome` | scripts/import_cycle_scan.py:69-71 | the chopping loop computes it |
| `ImportEdges.EdgeBuilder.Visit` | scripts/import_cycle_scan.py:62-76 | the recursive walk collects exactly the edges and deferrals below a node |
| `ImportEdges.EdgeBuilder.Build` | scripts/import_cycle_scan.py:57-78 | the edges form a graph over the known modules without self-edges |
| `ImportEdges.ScanImports` | scripts/import_cycle_scan.py:57-125 | the whole script, from syntax trees to exit status |
| `GitWatchProperties.OnePollPerService` | src/nerdit/core/gitwatch.py:186-218 | until shutdown, over every run, running tasks and registry coincide, a service has at most one poll, and the re-nudge set stays inside the in-flight set |
| `GitWatchProperties.EveryNudgeHasAPollAhead` | src/nerdit/core/gitwatch.py:245-299 | after a matched nudge, until a poll of the service starts or a scan that did not see the service drops the re-nudge behind a started poll, a poll is registered that has not started or one is running that will be followed |
| `GitWatchProperties.FollowUpIsSpawned` | src/nerdit/core/gitwatch.py:346-354 | over every run, a poll that finishes while its service is owed one registers an unstarted one that is due now with a clean failure count |
| `GitWatchProperties.StaleScanDropsARenudge` | src/nerdit/core/gitwatch.py:188-210 | from every reachable state with a scan under way that missed the service: a nudge behind a finishing poll, then the pruning, and no poll follows |
| `GitWatchProperties.StaleScanIsReachable` | src/nerdit/core/gitwatch.py:188-210 | such a state is reached from a start: a scan reads the rows before the service is a candidate, and a push starts a poll of it |
| `GitWatchProperties.TriggersAreGuarded` | src/nerdit/core/gitwatch.py:356-447 | every trigger rests on a last fresh read of an eligible row on the probed source, at neither the recorded nor the pinned commit |
| `GitWatchProperties.PinnedCommitsAreNotRetriggered` | src/nerdit/core/gitwatch.py:411-417 | over every run a pinned commit is not triggered until its pin is released, replaced or swept |
| `GitWatchProperties.CommitRecordsTheHint` | src/nerdit/core/gitwatch.py:306-316 | what a completed poll remembers is the commit the nudge named, whatever it saw deployed or shipped: its own commit, if not remembered before, is remembered if and only if the nudge named it |
| `GitWatchProperties.RememberKeepsTheNewest` | src/nerdit/core/gitwatch.py:301-304 | the newest nudge is always remembered and only the oldest makes room |
| `GitWatchProperties.DelayGrowsToTheCap` | src/nerdit/core/gitwatch.py:654-660 | backoff never shrinks with failures and never exceeds the cap |
| `GitWatchProperties.StepKeeps` | src/nerdit/core/gitwatch.py:327-354 | every stretch between two awaits keeps the poller's invariant |
| `GitWatch.GitWatchController.Reconcile` | src/nerdit/core/gitwatch.py:188-218 | after a due scan every due candidate has a poll, nothing else was started, and the next scan is the earliest deadline ahead or one interval out |
| `GitWatch.GitWatchController.NudgeOne` | src/nerdit/core/gitwatch.py:245-299 | the in-place nudge is the machine's, keeps its invariant, and unless remembered leaves a poll ahead of it |
| `GitWatch.GitWatchController.FinishPoll` | src/nerdit/core/gitwatch.py:327-354 | the in-place end of a poll is the machine's, keeps its invariant, and leaves a service that is owed a poll with one yet to start |
| `GitWatch.GitWatchController.RememberNudge` | src/nerdit/core/gitwatch.py:301-304 | the bounded dedupe keeps the newest 512 keys in order |
| `GitWatch.GitWatchController.Horizon` | src/nerdit/core/gitwatch.py:212-218 | the next scan time |
| `SecretScrub.NothingSurvives` | src/nerdit/core/launch.py:76-102 | a scrubbed line contains no gateway key, and no value that neither starts nor ends with a star nor holds three in a row, whatever the other values are |
| `SecretScrub.OnlySecretsAreMasked` | src/nerdit/core/launch.py:92-102 | the scrubbed line is the line with disjoint stretches masked, each exactly a value or a gateway key |
| `SecretScrub.TargetsIgnoreOrder` | src/nerdit/core/launch.py:88-91 | the targets depend on the set of values, not on their order or number |
| `SecretScrub.ScrubIsReliableExactlyWhen` | src/nerdit/core/launch.py:76-102 | a single value is gone from every scrubbed line if and only if it neither starts nor ends with a star nor holds three in a row, or holds a gateway key |
| `SecretScrub.UnsafeValueSurvives` | src/nerdit/core/launch.py:95-98 | for every other value, a line on which it is still there after the scrub |
| `SecretScrub.StarFreeIsSafe` | src/nerdit/core/launch.py:95-98 | values without stars are covered |
| `SecretScrub.MaskLeavesNone` | src/nerdit/core/launch.py:95-101 | one pass leaves no occurrence of what it replaced |
| `SecretScrub.PassesDoNotCross` | src/nerdit/core/launch.py:95-101 | a later pass never matches across an earlier mask |
| `SecretScrub.SortedIsUnique` | src/nerdit/core/launch.py:88-91 | a set of values has one longest-first, lexically tie-broken order |
| `SecretScrub.ScrubSecretValues` | src/nerdit/core/launch.py:76-102 | the loops compute that function of each line |
| `NodeRanges.ComparatorsMeanTheRange` | src/nerdit/core/node_runtime.py:40-58 | for every operator, all naturals and every version: the comparators are passed exactly by the versions the range stands for, stated over the block of versions a partial version denotes |
| `NodeRanges.RefusedExactlyWhen` | src/nerdit/core/node_runtime.py:42-45 | an order comparison is refused if and only if the block it compares with is all versions |
| `NodeRanges.BranchIsConvex` | src/nerdit/core/node_runtime.py:89-98 | every alternative holds of everything between two versions it holds of |
| `NodeRanges.UpperIsPastTheBlock` | src/nerdit/core/node_runtime.py:33-37 | not below the upper bound is above every version of the block |
| `NodeRuntime.NumbersRefuse` | src/nerdit/core/node_runtime.py:22-28 | a partial version is refused exactly when a number stands behind a wildcard |
| `NodeSyntax.ReadingUndoesSpelling` | src/nerdit/core/node_runtime.py:61-86 | reading what any list of alternatives of operator and version tokens or hyphen ranges spells gives it back, however it is spaced |
| `NodeSyntax.AcceptedExactlyWhenSpelled` | src/nerdit/core/node_runtime.py:61-86 | a text is accepted if and only if it has at most 512 characters and, stripped, spells such a list |
| `NodeSyntax.TokensAreNoHyphen` | src/nerdit/core/node_runtime.py:69-72 | a token list is never taken for a hyphen range |
| `NodeRuntime.RequirementMeansIt` | src/nerdit/core/node_runtime.py:61-98 | a version passes the parsed comparators exactly when it is in every range of one alternative |
| `NodeRuntime.ReadComparators` | src/nerdit/core/node_runtime.py:73-85 | the tokenizer's offset loop terminates and computes the alternative's comparators |
| `NodeRuntime.ParseRequirement` | src/nerdit/core/node_runtime.py:61-86 | the parser's loop computes the requirement's meaning or refuses it |
| `NodeRuntime.Resolve` | src/nerdit/core/node_runtime.py:101-140 | the newest pinned version satisfying every declaration, or none exactly when a declaration is unusable or no pinned version satisfies them all |
| `NodeRuntime.PartialOf` | src/nerdit/core/node_runtime.py:18-30 | the piece loop computes the given components |
| `NodeRuntime.UpperOf` | src/nerdit/core/node_runtime.py:33-37 | the list update computes the upper bound |
| `Notify.WebhookDispatcher.Drain` | src/nerdit/core/notify.py:143-189 | wherever a pass is cut short, a wanted event the durable cursor has passed since the seed was delivered, or given up on and audited, if and only if it did not leave the feed ahead of the cursor while nobody had been told of it and no pass held it; the cursor never moves back; the pass terminates, and unless cut short ends with nothing ahead of the cursor or one batch given up on; while the event sweep prunes only behind the cursor nothing is lost |
| `Notify.WebhookDispatcher.SweepThenDrain` | src/nerdit/db/queries/events.py:130-146 | a sweep and the next pass: what is passed in silence is exactly what the sweep's watermark reached ahead of the cursor before anybody was told of it, as far as the pass got; undisturbed it gets beyond all of it once one newer event is there |
| `Notify.PrunedEventIsPassedOver` | src/nerdit/db/queries/events.py:130-146 | so from every state with a wanted, untold event ahead of the cursor and a newer one behind it, sweeping up to the first makes the next pass go over it without delivery or audit |
| `Notify.WebhookDispatcher.HandleBatch` | src/nerdit/core/notify.py:165-189 | the cursor moves over the whole batch once its wanted part is delivered or passed to the failure audit |
| `Notify.WebhookDispatcher.DeliverBatch` | src/nerdit/core/notify.py:173-182 | at most the configured attempts, until one is answered 2xx |
| `Notify.WebhookDispatcher.SetCursor` | src/nerdit/db/queries/events.py:159-168 | a cursor write goes forward only, past settled events only |
| `Notify.WebhookDispatcher.Seed` | src/nerdit/core/notify.py:153-156 | a new target starts at the feed head and is delivered nothing |
| `Notify.WebhookDispatcher.ReadBatch` | src/nerdit/db/queries/events.py:57-97 | the first events ahead of the cursor, and empty only when there are none |
| `Notify.AdvanceAccounts` | src/nerdit/core/notify.py:165-189 | moving the cursor over a settled batch keeps everything behind it accounted for |
| `Notify.ReadFinds` | src/nerdit/db/queries/events.py:57-97 | a limited read stops at its limit or at the end |
| `Retention.AuditLog.ArchiveAndPrune` | src/nerdit/core/retention.py:71-187 | with inserts at every await and a raise or crash at any: no row is lost, none is removed before its archive is anchored, and a completed sweep archived and removed exactly the rows eligible at its start; it completes unless an await raises or the daemon dies |
| `Retention.AuditLog.ExportAndAnchor` | src/nerdit/core/retention.py:97-172 | the archive holds exactly the eligible rows before it counts; a failure leaves no anchored archive and removes nothing |
| `Retention.AuditLog.Export` | src/nerdit/core/retention.py:119-153 | the export loop terminates with every eligible row up to the snapshot written |
| `Retention.AuditLog.DeleteArchived` | src/nerdit/core/retention.py:174-185 | the delete loop terminates, removes only archived rows and counts them; rows inserted since are untouched |
| `Retention.AuditLog.Fetch` | src/nerdit/db/queries/audit.py:131-153 | the first eligible rows above a watermark, and none only when there are none |
| `Retention.AuditLog.DeleteChunk` | src/nerdit/db/queries/audit.py:156-170 | at most 500 eligible rows at or below the watermark |
| `Retention.PrunedIsSafe` | src/nerdit/core/retention.py:174-185 | removing rows an anchored archive holds loses nothing |
| `Retention.ScanFinds` | src/nerdit/db/queries/audit.py:131-153 | a limited scan stops at its limit or at the snapshot's end |
| `Sweeper.NoHeldRunIsReaped` | src/nerdit/core/sweeper.py:151-256 | for every interleaving of claims, starts, binds and discards with the boot reap, no container is killed or removed while its run's slot is held |
| `Sweeper.ProbingFirstIsNotEnough` | src/nerdit/core/sweeper.py:199-222 | in the pass with the probe moved before the listing, from every initial state, the run probe, claim, start, list, kill destroys a held run's container |
| `Sweeper.StepKeeps` | src/nerdit/core/sweeper.py:151-256 | every step keeps the reap's invariant |
| `Sweeper.ZombieSweeper.KillBootRunOrphans` | src/nerdit/core/sweeper.py:151-256 | the pass with other tasks running at its awaits and kills and removals that may fail destroys no held run's container and counts the kills that landed; undisturbed, it kills exactly the labelled containers no slot and no row names, or none while a slot is unbound |
| `Sweeper.ZombieSweeper.ReapOne` | src/nerdit/core/sweeper.py:235-252 | a container protected at its turn is not killed, and one is counted exactly when its kill landed |
| `EventLog.FlapsNeedAnOverflow` | src/nerdit/core/eventlog.py:316-340 | two stored rows of one coalescible key less than a window apart have at least 512 other keys stored between them |
| `EventLog.LastingOrEvicted` | src/nerdit/core/eventlog.py:331-336 | a stored key stands in the map with exactly the keys stored since behind it, or at least 512 have been stored since |
| `EventLog.RecentIsDistinct` | src/nerdit/core/eventlog.py:331-336 | the map never holds more than 512 keys nor one twice |
| `EventLog.EventRecorder.Record` | src/nerdit/core/eventlog.py:243-308 | a record is written unless suppressed or failed, and only a written one is stamped |
| `EventLog.EventRecorder.Commit` | src/nerdit/core/eventlog.py:331-336 | the eviction loop leaves the newest 512 keys in order of last commit |
| `ProjectIdentity.LabelsAreUnambiguous` | src/nerdit/core/project_identity.py:63-94 | names within the grammar: equal labels come from equal project, environment and service |
| `ProjectIdentity.ProductionLabelsAlwaysFit` | src/nerdit/core/project_identity.py:70-94 | in production a name within its grammar is never refused |
| `ProjectIdentity.RefusedExactlyWhenTooLong` | src/nerdit/core/project_identity.py:84-94 | a label of names is refused exactly when it is longer than 63 characters |
| `ProjectIdentity.LegacyNameCollidesExactlyWhen` | src/nerdit/core/project_identity.py:80-83 | a legacy name is also the label of a service that may be created if and only if it fits a DNS label and its parts around double dashes are names within their lengths that such a service could have |
| `ProjectIdentity.QualifiedNamesReadBack` | src/nerdit/core/project_identity.py:97-123 | each way of writing an identity parses to it |
| `ProjectIdentity.ParsedNamesAreQualified` | src/nerdit/core/project_identity.py:97-123 | whatever parses is one of those writings |
| `ConfigStore.StageTouchesOnlySuppliedKeys` | src/nerdit/config/store.py:585-606 | keys outside the request are on disk as they were |
| `ConfigStore.DiffIsExact` | src/nerdit/config/store.py:625-645 | for idempotent coercion the diff is exactly the set of keys whose effective value changes |
| `ConfigStore.RestagingIsANoOp` | src/nerdit/config/store.py:509-652 | for idempotent coercion that takes tables entry by entry, staging the same body on its result succeeds, changes nothing and reports nothing |
| `ConfigStore.RestagingNeedsEntrywise` | src/nerdit/config/store.py:585-606 | for an idempotent coercion that looks at several entries of a table at once, staging the same body again changes the section |
| `ConfigStore.StagingOrderDoesNotMatter` | src/nerdit/config/store.py:654-705 | staging sections one after the other gives one result in every order: all of them applied, or none |
| `ConfigStore.Store.StageMany` | src/nerdit/config/store.py:654-705 | the accumulating loop computes it, with each section's own diff |
| `ConfigStore.OrderedStagingApplies` | src/nerdit/config/store.py:666-688 | one order's staging is the independent staging of its sections |

## Left out

- GitWatch.GitWatchController.Reconcile: the rows are read before the call, and a candidate is its name; the machine's scan steps carry the interleaving between the read and the pruning.
- ReleaseProperties.SettleNeverTouchesANewerGeneration: the phase stamp is one step, so the window between its read and its unguarded write is left to `DeployState`; rollbacks onto the settle's own target are excluded, with the counterexample beside it.
- ReleaseProperties.OnlyReleasedImagesAreSwappedIn: a crash between tagging the image and arming the marker leaves no persisted trace, so the promise starts when the marker is armed; permitted runs only, with the exact conditions above.
- CutoverSafety.PointerNamesTheServingContainer: redeploys and rollbacks are restricted to where dropping the marker can strand nothing; `DroppingTheMarkerIsSafeExactlyWhen` says where that is.
- ConfigStore.DiffIsExact: needs coercion to be idempotent; nulls nested inside a sub-table are ordinary values here.
- ConfigStore.RestagingIsANoOp: needs tables to be coerced entry by entry, as nested models are; `RestagingNeedsEntrywise` shows it fails otherwise.
- Redeploys prepared on an old read of the configuration: the machines read and write in one step, so a stale rollback target taken from such a read is not modelled.
- Images whose tag carries no generation number: their settles are unguarded by design and the machine does not have them.
- Deleting a service while it builds, stopping it (beyond the desired state) and the release of its endpoint.
- The settle events of the phase writer, audit payloads, log text and advisory hints.
- Spaces, digits and letters beyond ASCII in version requirements and in forbidden configuration keys.
- A service deleted and recreated under its name while a poll of the old one runs; the semaphore that bounds concurrent polls; matching a push to a source; the hourly limit on skip events.
- The periodic zombie sweep: its promise rests on an age threshold against wall-clock time.
- Docker, Caddy, HTTP, git, SQLite, file-system durability and secret decryption: each is an outcome or a small store.
- The daemon's routes and pipeline apart from the writes named above, the CLI, settings validators, Dockerfile generation, GPU placement, licences and backups.
- Everything in `launch.py` but the scrub and the pointer clear.
