# Verified model of the SubversionR daemon

This Dafny project models the state machines of the SubversionR daemon (`crates/subversionr-daemon`) and
proves what they promise.

- **Status cache** (`Status`, `StatusRequests`, `StatusTheorems`, `StatusLaws`, `RefreshLaws`): snapshots,
  partial refreshes and remote checks of an open repository, the deltas sent to the client, and the client
  that folds them.
- **Remote native lanes** (`Lanes`, `LaneTheorems`, `LaneLaws`, `DaemonState`) and **sessions**
  (`SessionLaws`): which remote operation may use a working copy, what a settled worker leaves behind, and
  how an indeterminate working copy is recovered.
- **Main loop** (`Stdio`, `StdioTheorems`, `LoopLaws`, `Ledger`, `Broker`, `BrokerLaws`, `Cancellation`,
  `CancellationLaws`, `BoundedQueue`): requests, running workers and completions as one transition system,
  credential calls of workers, and cancellation.
- **Worker registry** (`WorkerRegistry`, `RevokeFence`, `FenceLaws`): worker calls, their processes and the registry,
  interleaved lock region by lock region.
- **Worker protocol and command line** (`WorkerProtocol`, `WireFailures`, `CommandLine`).
- **Framing** (`ContentLength`, `FramingTheorems`): the Header Part of the Base Protocol section of the
  Language Server Protocol 3.17.
- **Discovery** (`Discovery`, `Candidates`), **path keys** (`Paths`) and what several modules share (`Options`,
  `Collections`).

The modules named Laws say what each operation means without naming the functions that compute it: when it
acts, what it then leaves, and what it does not touch.

Objects that the daemon updates in place are classes whose methods are proved to make the steps that the
functions describe. The theorems are about those functions and hold for every run. Whether the build is
for Windows is an unspecified constant, so everything holds for either value.

What the operating system, the bridge to Subversion and the client do enters as parameters: scan results,
settlements, process counts, clock readings, buffer boundaries. `dafny verify dfyconfig.toml` checks the
whole project.

Five properties one might expect do not hold of the code. Each has a concrete run or input and the exact
condition under which it holds.

- A full refresh does not always equal a snapshot: `FullRefreshCanHideRows`, `FullRefreshEqualsSnapshotIff`.
- Lanes of all kinds are not always disjoint: `LanesCanOverlap`, `LanesStayDisjointIff`, `DisjointnessEndsIff`.
  Active ones are: `ReachableStatesAreOk`.
- A revocation can leave a process alive whose call gave up in setup: `FenceCanMissAChild`,
  `FenceIsCompleteIff`, `CompleteFence`.
- Quoting loses empty arguments and doubles the final backslash of a quoted program path:
  `EmptyArgumentIsLost`, `FinalBackslashIsDoubled`, `RoundTripIff`.
- A late response can answer a later credential call under the same id: `LateResponseCanReachALaterCall`,
  `SwallowedIff`.

## Model

| member | source | states |
|---|---|---|
| `Paths.DescendantIsComponentPrefix` | crates/subversionr-daemon/src/state.rs:3708-3712 | the string test for "lies below" holds exactly when the parent's components are a proper prefix of the child's |
| `Paths.DescendantIsStrictForestOrder` | crates/subversionr-daemon/src/state.rs:3708-3712 | "lies below" is irreflexive and transitive, and whatever lies above one path forms a chain |
| `Paths.ChainAbove` | crates/subversionr-daemon/src/state.rs:3708-3712 | of two paths above the same path, the longer equals or lies below the shorter |
| `StatusTheorems.CoverageIsByComponents` | crates/subversionr-daemon/src/state.rs:5365-5395 | the string rules of coverage, at every depth, hold exactly when the component-by-component reading does |
| `StatusTheorems.LocalIndexIsPointwise` | crates/subversionr-daemon/src/state.rs:5301-5310 | the local cache built from rows without repeated paths is the projectable rows by path |
| `StatusTheorems.RemoteIndexIsPointwise` | crates/subversionr-daemon/src/state.rs:5312-5321 | the remote cache built from rows without repeated paths is the remotely projectable rows by path |
| `StatusTheorems.MergeIsPointwise` | crates/subversionr-daemon/src/state.rs:891-937 | the retain, insert and drop loops of one scan leave, at each path, exactly the scan's visible projectable row, or else the old row that is visible and not covered |
| `StatusTheorems.FullRefreshRefinesSnapshot` | crates/subversionr-daemon/src/state.rs:810-947 | a refresh of the whole tree leaves what a snapshot of the same scan would, minus the unversioned rows the old cache listed as conflict artifacts |
| `StatusTheorems.FullRefreshEqualsSnapshotIff` | crates/subversionr-daemon/src/state.rs:876-947 | the two are equal exactly if no unversioned row of the scan was a conflict artifact of the old cache |
| `StatusTheorems.FullRefreshCanHideRows` | crates/subversionr-daemon/src/state.rs:876-890 | a session and a scan on which the full refresh and the snapshot differ |
| `StatusTheorems.SecondFullRefreshHeals` | crates/subversionr-daemon/src/state.rs:876-947 | a second full refresh with the same scan always agrees with the snapshot |
| `StatusTheorems.SnapshotKeepsSession` | crates/subversionr-daemon/src/state.rs:760-789 | snapshots, successful or not, keep the session invariant: rows keyed by path, projectable, outside boundaries, older than the next generation, and no cached artifact of a cached row |
| `StatusTheorems.RefreshKeepsSession` | crates/subversionr-daemon/src/state.rs:833-947 | refreshes with any targets and answers keep the session invariant |
| `StatusTheorems.CheckRemoteKeepsSession` | crates/subversionr-daemon/src/state.rs:1035-1064 | remote checks keep the session invariant |
| `StatusTheorems.RecoveryKeepsSession` | crates/subversionr-daemon/src/state.rs:2657-2671 | a successful recovery keeps the session invariant |
| `StatusTheorems.UntouchedRowStays` | crates/subversionr-daemon/src/state.rs:891-937 | over any list of scans, a row that no target covers, no scan reports and no artifact list hides is unchanged |
| `StatusTheorems.CoveredMissingRowGoes` | crates/subversionr-daemon/src/state.rs:891-937 | a row covered by one target and missing from its scan and all later ones is gone |
| `StatusTheorems.LastReportWins` | crates/subversionr-daemon/src/state.rs:891-937 | the last scan that reports a visible row decides it: cached as reported if projectable, absent otherwise |
| `StatusTheorems.DeltaReplays` | crates/subversionr-daemon/src/state.rs:5401-5421 | removing and upserting as the delta says turns the old cache into the new one, whatever the order of the lists |
| `StatusTheorems.DeltaIsMinimal` | crates/subversionr-daemon/src/state.rs:5401-5421 | any other delta between the same caches removes at least the same paths and upserts at least the same rows; upserts and removes are disjoint |
| `StatusTheorems.TallyIsCount` | crates/subversionr-daemon/src/state.rs:5423-5453 | the counting loop over rows without repeated paths counts the paths of the cache they form |
| `StatusTheorems.SnapshotSummaryIsCacheSummary` | crates/subversionr-daemon/src/state.rs:5423-5469 | the summary of a snapshot's unfiltered rows equals the summary of the cache that keeps only projectable ones |
| `StatusTheorems.ClientMirrorsEveryRun` | crates/subversionr-daemon/src/state.rs:741-1093 | over every run of snapshots, refreshes, remote checks and recoveries, a client that folds the replies holds the daemon's local and remote caches, until a recovery tells it that it is stale; the session invariant holds throughout |
| `StatusTheorems.TotalsTelescopeInEveryRun` | crates/subversionr-daemon/src/state.rs:5423-5478 | snapshot summary plus all later summary deltas equals the current cache's summary in every run, for scans without repeated paths and counts below 2^31 |
| `StatusRequests.IndexLocal` | crates/subversionr-daemon/src/state.rs:5301-5310 | the indexing loop builds the local cache |
| `StatusRequests.IndexRemote` | crates/subversionr-daemon/src/state.rs:5312-5321 | the indexing loop builds the remote cache |
| `StatusRequests.InsertRows` | crates/subversionr-daemon/src/state.rs:913-918 | the insertion loop adds projectable rows and removes the others' paths |
| `StatusRequests.DropUnseen` | crates/subversionr-daemon/src/state.rs:920-929 | the loop that removes covered rows the scan did not show |
| `StatusRequests.MergeAll` | crates/subversionr-daemon/src/state.rs:882-937 | the loop over all scans, with the artifact set that only grows, computes the merged cache |
| `StatusRequests.ScanAll` | crates/subversionr-daemon/src/state.rs:834-874 | the scan loop succeeds exactly if every active target was answered, and then pairs each with the rows left of its own answer (`ScanPairs`) |
| `StatusRequests.Summarize` | crates/subversionr-daemon/src/state.rs:5455-5469 | the summary counted in loops over the two lists |
| `DaemonStateObject.Difference` | crates/subversionr-daemon/src/state.rs:5401-5421 | upserts list exactly the rows that are new or changed, each once; removes exactly the paths that are gone |
| `DaemonStateObject.DeltaBetween` | crates/subversionr-daemon/src/state.rs:939-966 | the delta names the difference of both caches and the difference of their summaries |
| `DaemonStateObject.SnapshotSession` | crates/subversionr-daemon/src/state.rs:760-808 | the session and reply of a successful snapshot, keeping the old remote rows restamped if the scan has none |
| `DaemonStateObject.RefreshSession` | crates/subversionr-daemon/src/state.rs:833-976 | the refreshed session (`RefreshLaw` says which rows it caches) and its delta; nothing changes if a scan failed |
| `DaemonStateObject.CheckRemoteSession` | crates/subversionr-daemon/src/state.rs:1035-1093 | the session after a remote check (`CheckRemoteLaw` says which rows it caches) and its delta; nothing changes on failure |
| `DaemonStateObject.RecoverSession` | crates/subversionr-daemon/src/state.rs:2657-2671 | the session after a successful recovery (`RecoveryLaw` says which rows it caches) |
| `DaemonStateObject.DaemonState.OpenRepository` | crates/subversionr-daemon/src/state.rs:585-665 | opens a session once per repository id with a fresh epoch, if its boundaries lie properly below its root |
| `DaemonStateObject.DaemonState.CloseRepository` | crates/subversionr-daemon/src/state.rs:711-739 | closes exactly the session with this id and epoch |
| `DaemonStateObject.DaemonState.GetSnapshot` | crates/subversionr-daemon/src/state.rs:741-808 | snapshot of an open session; sessions stay consistent |
| `DaemonStateObject.DaemonState.RefreshStatus` | crates/subversionr-daemon/src/state.rs:810-976 | refresh of an open session; the delta leads from the old caches to the new; sessions stay consistent |
| `DaemonStateObject.DaemonState.CheckRemoteStatus` | crates/subversionr-daemon/src/state.rs:978-1093 | remote check of an open session; the delta leads from the old caches to the new; sessions stay consistent |
| `DaemonStateObject.DaemonState.NativeLaneFailure` | crates/subversionr-daemon/src/state.rs:3084-3167 | a request is refused exactly if one of its paths overlaps a used lane, for the reason of the first such lane of the first such path |
| `DaemonStateObject.DaemonState.FindAttribution` | crates/subversionr-daemon/src/state.rs:2858-2873 | finds the first session by id whose root has the lane's key, exactly if there is one |
| `DaemonStateObject.DaemonState.ReserveRemoteLane` | crates/subversionr-daemon/src/state.rs:2891-2945 | occupies a free lane under a new id, or changes nothing and says why |
| `DaemonStateObject.DaemonState.SettleRemoteLaunch` | crates/subversionr-daemon/src/state.rs:2947-3082 | frees, blocks or leaves to recovery the lane of a finished worker, and returns an override exactly when it blocks |
| `DaemonStateObject.DaemonState.RecoverWorkingCopy` | crates/subversionr-daemon/src/state.rs:2387-2595 | starts a recovery exactly when `RecoveryLaunchedIff` says, or refuses one for the reason `RecoveryRefusals` gives |
| `DaemonStateObject.DaemonState.SettleRemoteRecovery` | crates/subversionr-daemon/src/state.rs:2597-2776 | settles a recovery: the session is rebuilt from the rows found and the lane freed (`RecoverySucceeds`), or the lane stays indeterminate or is blocked (`RecoveryFails`) |
| `LaneTheorems.PassingTheGateMeansUnused` | crates/subversionr-daemon/src/state.rs:3084-3167 | a session whose request passes the gate is used by no running worker and no running recovery |
| `LaneTheorems.CloseKeeps` | crates/subversionr-daemon/src/state.rs:711-739 | closing an unused session keeps the invariant of lanes, running work and sessions |
| `LaneTheorems.OpenKeeps` | crates/subversionr-daemon/src/state.rs:585-665 | opening a session keeps the invariant |
| `LaneTheorems.BoundariesAreKept` | crates/subversionr-daemon/src/state.rs:3366-3387 | of the boundaries asked for, all keys are kept, each once |
| `LaneTheorems.InsideIff` | crates/subversionr-daemon/src/state.rs:3366-3438 | a row is inside a session's boundaries exactly if it is inside one of those asked for |
| `DaemonStateObject.CollectBoundaries` | crates/subversionr-daemon/src/state.rs:3366-3387 | the loop with its set of seen keys keeps the first boundary of each key, or none at all if one is bad |
| `DaemonStateObject.MakeBoundariesRelative` | crates/subversionr-daemon/src/state.rs:3366-3402 | the absolute boundaries of a request as paths below the root |
| `LaneTheorems.ReserveKeeps` | crates/subversionr-daemon/src/state.rs:2891-2945 | reserving a lane behind the gate keeps the invariant, with the new work running |
| `LaneTheorems.StartRecoveryKeeps` | crates/subversionr-daemon/src/state.rs:2387-2595 | starting a recovery, which bypasses the gate, keeps the invariant |
| `LaneTheorems.SettleLaunchKeeps` | crates/subversionr-daemon/src/state.rs:2947-3082 | settling a worker keeps the invariant, with that work gone |
| `LaneTheorems.SettleRecoveryKeeps` | crates/subversionr-daemon/src/state.rs:2597-2776 | settling a recovery keeps the invariant, with that work gone |
| `StdioTheorems.DispatchKeeps` | crates/subversionr-daemon/src/state.rs:187-199 | any request, through the gate or past it, leaves a consistent daemon and launches only new operations |
| `StdioTheorems.EventKeeps` | crates/subversionr-daemon/src/stdio.rs:68-274 | every event of the main loop keeps the invariant of the loop |
| `StdioTheorems.EveryRunIsOk` | crates/subversionr-daemon/src/stdio.rs:68-274 | the invariant holds in every state of every run |
| `StdioTheorems.ReachableStatesAreOk` | crates/subversionr-daemon/src/state.rs:3084-3167 | in every state reachable from the start no two Active lanes overlap, sessions are consistent and the loop has not died |
| `StdioTheorems.CompletionsFindTheirPlace` | crates/subversionr-daemon/src/state.rs:2607-2656 | a completion always finds its pending request and its lane, fully attributed or not at all, and a recovery its session at the planned epoch and generation, so the failure branches for that are never taken |
| `StdioTheorems.PendingAreTheOccupants` | crates/subversionr-daemon/src/stdio.rs:759-834 | pending requests, active operation ids and lane occupants are the same set, one id per lane |
| `StdioTheorems.OneAnswerEach` | crates/subversionr-daemon/src/stdio.rs:68-274 | each received request is pending or has been closed exactly once, and none goes unanswered on a live connection |
| `StdioTheorems.SettlementClassification` | crates/subversionr-daemon/src/remote_worker.rs:87-116 | exactly when a settled worker frees its lane, leaves it to recovery or blocks it, and that the override is returned exactly when it blocks |
| `StdioTheorems.UnresolvedStep` | crates/subversionr-daemon/src/state.rs:2597-3082 | one event leaves an indeterminate lane with its origin and history, unless it is the success of a recovery naming that origin |
| `StdioTheorems.OnlyRecoveryResolves` | crates/subversionr-daemon/src/state.rs:2597-2776 | over any run an indeterminate lane is resolved only by a successful recovery naming its origin operation |
| `StdioTheorems.BlockedForever` | crates/subversionr-daemon/src/state.rs:2947-3082 | a blocked lane stays exactly as it is for the rest of the run |
| `StdioTheorems.RecoveryAttemptsAreBounded` | crates/subversionr-daemon/src/state.rs:2454-2569 | the recoveries launched in one incident have different ids, none the origin's, and are at most 64 |
| `StdioTheorems.FailedRecoveryUsesAnId` | crates/subversionr-daemon/src/state.rs:2742-2757 | a recovery that fails without blocking uses up exactly one of the 64 ids |
| `StdioTheorems.LanesStayDisjointIff` | crates/subversionr-daemon/src/state.rs:2387-2595 | a request keeps all lanes disjoint exactly if it is not a recovery, under fresh ids and of an open session, that claims a free lane overlapping a used one |
| `StdioTheorems.LanesDisjointInEveryRun` | crates/subversionr-daemon/src/stdio.rs:68-274 | in every run from the start all lanes are disjoint as long as no such recovery was received |
| `StdioTheorems.DisjointnessEndsIff` | crates/subversionr-daemon/src/stdio.rs:68-274 | the first such recovery of a run is exactly where disjointness ends |
| `StdioTheorems.LanesCanOverlap` | crates/subversionr-daemon/src/state.rs:2482-2537 | a run from the start that ends with overlapping lanes |
| `WorkerRegistry.ActiveWorkerRegistry.ReserveLaunch` | crates/subversionr-daemon/src/remote_worker_windows.rs:383-402 | a reservation is given exactly if launches are allowed, nobody disconnected and the counter does not overflow |
| `WorkerRegistry.ActiveWorkerRegistry.DropReservation` | crates/subversionr-daemon/src/remote_worker_windows.rs:511-519 | dropping a reservation takes one off the counter |
| `WorkerRegistry.ActiveWorkerRegistry.Register` | crates/subversionr-daemon/src/remote_worker_windows.rs:404-442 | a job is entered under the next id exactly if the gate is still open; ids are never used again |
| `WorkerRegistry.ActiveWorkerRegistry.DropRegistration` | crates/subversionr-daemon/src/remote_worker_windows.rs:521-538 | dropping a registration removes its own id only |
| `WorkerRegistry.ActiveWorkerRegistry.AllowLaunches` | crates/subversionr-daemon/src/remote_worker_windows.rs:452-462 | launches are allowed exactly if the supervisor is not disconnected |
| `WorkerRegistry.ActiveWorkerRegistry.BlockLaunches` | crates/subversionr-daemon/src/remote_worker_windows.rs:464-473 | launches are blocked and all jobs in the table are taken to be terminated |
| `WorkerRegistry.ActiveWorkerRegistry.Poll` | crates/subversionr-daemon/src/remote_worker_windows.rs:482-508 | one poll removes exactly the jobs that report no process, and is done exactly if no job and no reservation is left |
| `RevokeFence.StepKeeps` | crates/subversionr-daemon/src/remote_worker_windows.rs:557-992 | every step of every worker call, process and supervisor keeps the invariant: the counter counts the reservations held, every live process is behind a reservation, a job entry or a call that gave up in setup, and ids name their own jobs |
| `RevokeFence.EveryStateIsOk` | crates/subversionr-daemon/src/remote_worker_windows.rs:557-992 | the invariant holds in every state of every interleaving |
| `RevokeFence.EveryJobWasTerminated` | crates/subversionr-daemon/src/remote_worker_windows.rs:464-473 | after launches are blocked, every job in the table was in it at the block, so none escapes termination |
| `RevokeFence.RevokeFence` | crates/subversionr-daemon/src/remote_worker.rs:325-336 | after block and an idle poll, until launches are allowed again, no call can start a worker, and every live process belongs to a call that had given up in setup before the poll |
| `RevokeFence.LiveStrayIff` | crates/subversionr-daemon/src/remote_worker_windows.rs:329-340 | a process outside reservations and table is exactly a live process of a call whose wait for it on leaving setup timed out |
| `RevokeFence.FenceIsCompleteIff` | crates/subversionr-daemon/src/remote_worker_windows.rs:329-340 | no process is alive from the poll on exactly if every child whose call stopped waiting for it had died by the poll |
| `RevokeFence.CompleteFence` | crates/subversionr-daemon/src/remote_worker_windows.rs:464-508 | if no wait on leaving setup timed out before the poll, then from the poll until launches are allowed again no process is alive and no call can begin, start a child or register one |
| `RevokeFence.ReservationsCanBeDropped` | crates/subversionr-daemon/src/remote_worker_windows.rs:511-519 | the counter is positive whenever a call holds a reservation, so dropping one never underflows |
| `RevokeFence.FenceCanMissAChild` | crates/subversionr-daemon/src/remote_worker_windows.rs:329-340 | a run in which a child outlives that wait, and with it the revocation |
| `RevokeFence.DisconnectIsFinal` | crates/subversionr-daemon/src/remote_worker.rs:320-328 | after a disconnect the fence holds for good, whatever is asked for later |
| `RevokeFence.CleanReportsAreRight` | crates/subversionr-daemon/src/remote_worker_windows.rs:594-632 | a call that supervised its worker, or was refused registration, and reports that no process is left is right, then and for ever |
| `CommandLine.QuoteArgument` | crates/subversionr-daemon/src/remote_worker_windows.rs:1418-1443 | the loop with its backslash counter writes the quoted form |
| `CommandLine.BuildCommandLine` | crates/subversionr-daemon/src/remote_worker_windows.rs:1445-1451 | the quoted parts joined by spaces, refused exactly if a NUL is in them |
| `CommandLine.ArgumentsReadBack` | crates/subversionr-daemon/src/remote_worker_windows.rs:1418-1451 | splitting the joined line by Microsoft's rules gives back every argument but the empty ones |
| `CommandLine.SplitIsProgramAndArguments` | crates/subversionr-daemon/src/remote_worker_windows.rs:1445-1451 | for a program path without quotes, the whole line splits into the path, its final backslashes doubled if it was quoted, and the non-empty arguments |
| `CommandLine.RoundTripIff` | crates/subversionr-daemon/src/remote_worker_windows.rs:1418-1451 | the line splits back into program and arguments exactly if no argument is empty and the program has no quote, and no final backslash if it needs quoting |
| `CommandLine.EmptyArgumentIsLost` | crates/subversionr-daemon/src/remote_worker_windows.rs:1422-1424 | an input on which an argument is lost |
| `CommandLine.FinalBackslashIsDoubled` | crates/subversionr-daemon/src/remote_worker_windows.rs:1440-1442 | an input on which the program's path comes back changed |
| `ContentLength.BufReader.ReadBoundedHeaderLine` | crates/subversionr-daemon/src/stdio.rs:2046-2072 | the line read, and whether it is too long, depend on the bytes alone and not on how they are cut into buffers |
| `ContentLength.BufReader.ReadExact` | crates/subversionr-daemon/src/stdio.rs:2041-2043 | the next bytes, or an error exactly if the stream is too short |
| `ContentLength.BufReader.ReadHeaders` | crates/subversionr-daemon/src/stdio.rs:1964-2028 | the header loop, with errors that wait for the end of the headers and errors that do not |
| `ContentLength.BufReader.ReadContentLengthFrame` | crates/subversionr-daemon/src/stdio.rs:1960-2044 | one frame read from any cutting of the bytes: payload and rest, end of stream, or the same error |
| `FramingTheorems.AcceptedIff` | crates/subversionr-daemon/src/stdio.rs:1960-2044 | a frame is accepted exactly if it is one length header within its limits, a blank line and the announced payload |
| `FramingTheorems.WrittenReadsBack` | crates/subversionr-daemon/src/stdio.rs:2074-2082 | a written frame is read back with what follows it untouched, exactly up to 4 MiB, and refused as too large above |
| `FramingTheorems.StreamReadsBackIff` | crates/subversionr-daemon/src/stdio.rs:1960-2082 | a stream of written frames reads back as the payloads and then ends, exactly if each is at most 4 MiB |
| `ContentLength.BufReader.ReadAllFrames` | crates/subversionr-daemon/src/stdio.rs:1090-1112 | the frames read from any cutting of the bytes, up to the end or the first error |
| `FramingTheorems.ReadBack` | crates/subversionr-daemon/src/stdio.rs:1960-2082 | however a stream of written frames is cut into buffers, the payloads come back and then the end, exactly if each is at most 4 MiB |
| `WorkerProtocol.DecodedIff` | crates/subversionr-daemon/src/remote_worker.rs:997-1022 | a stream decodes to a frame and a rest exactly if it is that frame's encoding followed by the rest |
| `WorkerProtocol.WorkerControlAuthBroker.Send` | crates/subversionr-daemon/src/remote_worker.rs:848-884 | a call of the worker's own operation gets the next number until the 32 bits are used up |
| `WorkerProtocol.WorkerControlAuthBroker.Receive` | crates/subversionr-daemon/src/remote_worker.rs:885-940 | only a reply of the right kind, operation, version and number is understood |
| `WorkerProtocol.FrameExchange.Turn` | crates/subversionr-daemon/src/remote_worker_windows.rs:1003-1062 | a frame with the expected number is answered in kind, anything else ends the exchange |
| `WorkerProtocol.FrameExchange.Finish` | crates/subversionr-daemon/src/remote_worker_windows.rs:1063-1076 | the final frame gives the response exactly if it names this operation and nothing follows |
| `WorkerProtocol.HopIsDirect` | crates/subversionr-daemon/src/remote_worker_windows.rs:1082-1116 | one call over the pipe is accepted by number and gives what a direct answer would |
| `WorkerProtocol.CallOverPipe` | crates/subversionr-daemon/src/remote_worker_windows.rs:1003-1062 | one call over the pipe gives what a direct answer would and keeps the two sides in step |
| `WorkerProtocol.Session` | crates/subversionr-daemon/src/remote_worker_windows.rs:994-1080 | for every sequence of calls and answers, each call gets what a direct answer would give, the two sides' numbers never disagree, and the final frame is accepted exactly if no answer ended the session and the numbers did not run out |
| `WireFailures.SettlementPassesUnchanged` | crates/subversionr-daemon/src/remote_worker.rs:459-533 | a settlement failure that is let through is let through unchanged, so at every hop |
| `WireFailures.SettlementPassesIff` | crates/subversionr-daemon/src/remote_worker.rs:459-533 | exactly which settlement failures are let through |
| `WireFailures.FinalPassesUnchanged` | crates/subversionr-daemon/src/remote_worker_windows.rs:1141-1191 | a failure accepted from a worker's final frame is accepted unchanged |
| `Cancellation.CancellationToken.Cancel` | crates/subversionr-daemon/src/stdio.rs:901-903 | an explicit cancellation overrides any state |
| `Cancellation.CancellationToken.Disconnect` | crates/subversionr-daemon/src/stdio.rs:905-909 | a disconnect marks only a running token |
| `Cancellation.CancelWins` | crates/subversionr-daemon/src/stdio.rs:889-924 | in whatever order threads act, a token ends explicitly cancelled exactly if someone cancelled it, and disconnected exactly if only disconnects happened |
| `BoundedQueue.RemovePendingId` | crates/subversionr-daemon/src/stdio.rs:1068-1074 | removes the first equal id and tells whether there was one |
| `BoundedQueue.InsertPendingId` | crates/subversionr-daemon/src/stdio.rs:1060-1066 | moves the id to the end and keeps the newest 64 |
| `BoundedQueue.InsertedKeeps` | crates/subversionr-daemon/src/stdio.rs:1225-1247 | the bounded queue never repeats an id, never exceeds 64 and holds the newest id |
| `BoundedQueue.StaysIff` | crates/subversionr-daemon/src/stdio.rs:1060-1074 | an id put in the queue is there after any insertions and removals of others exactly if never 64 of them were behind it at once |
| `BoundedQueue.LostIffCrowdedOut` | crates/subversionr-daemon/src/stdio.rs:1060-1066 | after insertions only, an id is lost exactly if 64 distinct others came after it |
| `BoundedQueue.RemainsIff` | crates/subversionr-daemon/src/stdio.rs:1225-1247 | exactly which ids any history of insertions and removals leaves: inserted, not removed since, and never 64 others behind since |
| `Cancellation.ActiveRequestCancellation.ActivateRequest` | crates/subversionr-daemon/src/stdio.rs:995-1015 | a request that begins takes its cancellation out of the queue and is cancelled exactly if it was there |
| `Cancellation.ActiveRequestCancellation.RecordOrCancel` | crates/subversionr-daemon/src/stdio.rs:1017-1031 | a cancellation cancels the first active request with its id, or else waits in the queue (`RecordLaw`, `TokenLife`) |
| `Cancellation.ActiveRequestCancellation.ClearRequest` | crates/subversionr-daemon/src/stdio.rs:1033-1041 | a finished request leaves the list, the first one with its id |
| `Cancellation.ActiveRequestCancellation.DisconnectAll` | crates/subversionr-daemon/src/stdio.rs:1043-1051 | every active request's token is disconnected unless it was cancelled |
| `Cancellation.EarlyCancelIff` | crates/subversionr-daemon/src/stdio.rs:990-1074 | in every run a cancellation that came before its request cancels it exactly if there were never 64 other waiting cancellations that came after it |
| `Broker.BrokerTable.AcceptCall` | crates/subversionr-daemon/src/stdio.rs:606-649 | a call waits under its id, or is refused at once under exactly the listed conditions |
| `Broker.BrokerTable.RouteResponse` | crates/subversionr-daemon/src/stdio.rs:651-685 | a response goes to the call waiting under its id, as an answer only before the deadline |
| `Broker.BrokerTable.ExpireCalls` | crates/subversionr-daemon/src/stdio.rs:687-701 | exactly the calls past their deadline are timed out |
| `Broker.BrokerTable.FailOperationCalls` | crates/subversionr-daemon/src/stdio.rs:707-723 | exactly the calls of a finished operation are failed |
| `Broker.BrokerTable.FailAllCalls` | crates/subversionr-daemon/src/stdio.rs:725-732 | all waiting calls are failed |
| `Broker.EventKeeps` | crates/subversionr-daemon/src/stdio.rs:606-732 | every event keeps each call either waiting under one id or replied to once, at most 64 waiting, each for an operation under way |
| `Broker.EveryStateIsOk` | crates/subversionr-daemon/src/stdio.rs:606-732 | this holds in every state of every run |
| `Broker.AnswersReachTheirCall` | crates/subversionr-daemon/src/stdio.rs:651-685 | in every run an answer sent to a worker is a response under its call's id that came after the call, before its deadline, while its operation was under way, and was not swallowed |
| `Broker.BrokerTable.RetireId` | crates/subversionr-daemon/src/stdio.rs:1208-1210 | an id is put last among the retired ones, of which the newest 64 are kept |
| `Broker.BrokerTable.ConsumeRetired` | crates/subversionr-daemon/src/stdio.rs:1212-1217 | a response is swallowed exactly if its id is retired, and frees the id |
| `Broker.BrokerTable.ReceiveResponse` | crates/subversionr-daemon/src/stdio.rs:1166-1171 | a response is swallowed, or goes to the call waiting under its id, or is left to others |
| `Broker.RetiredIsHistory` | crates/subversionr-daemon/src/stdio.rs:1208-1217 | in every run the retired ids are what the withdrawn calls and the responses before made of them |
| `Broker.SwallowedIff` | crates/subversionr-daemon/src/stdio.rs:1208-1247 | in every run a response is swallowed exactly if its id was retired, no response under it came since and never 64 other retired ids were behind it since; otherwise it answers whichever call waits under its id |
| `Broker.LateResponseCanReachALaterCall` | crates/subversionr-daemon/src/stdio.rs:651-701 | a run in which an id is used again after a timeout, the response to the second call is swallowed and the late response to the first answers the second |
| `Discovery.NestedHints` | crates/subversionr-daemon/src/state.rs:3576-3608 | the stack loop ends for every finite tree and finds the hints, each as often as it should |
| `Discovery.HintIff` | crates/subversionr-daemon/src/state.rs:3576-3608 | a path is a hint exactly if it leads to a working copy at depth 1 to the limit, entering neither an ignored nor an administrative directory |
| `Discovery.HintOnce` | crates/subversionr-daemon/src/state.rs:3576-3608 | no path is found twice |
| `Discovery.SortHints` | crates/subversionr-daemon/src/state.rs:3611-3620 | the hints are put in order, shallow first and then by key, none lost or added |
| `Discovery.NestedWorkingCopyHints` | crates/subversionr-daemon/src/state.rs:3576-3622 | the result is every hint with its key, in that order, and none twice if no directory has two entries of one name |
| `Candidates.NearestParent` | crates/subversionr-daemon/src/state.rs:3686-3706 | finds the deepest of the known working copies around a path, or none exactly if there is none |
| `Candidates.ChooseParent` | crates/subversionr-daemon/src/state.rs:3495-3500 | the nearest known working copy, or else the fallback if that lies above |
| `Candidates.CandidateList.Push` | crates/subversionr-daemon/src/state.rs:3483-3510 | a working copy that is neither ignored nor listed is listed last with that parent; no root is listed twice |
| `Candidates.NearestBeforeIsNearestOfAll` | crates/subversionr-daemon/src/state.rs:3611-3620 | in shallow-first order the nearest parent among those before is the nearest among all |
| `StatusLaws.BoundedIff` | crates/subversionr-daemon/src/state.rs:3416-3430 | exactly which rows of a scan are left after stamping and the boundary filter |
| `StatusLaws.PreparedIff` | crates/subversionr-daemon/src/state.rs:5323-5332 | exactly which rows of a scan are left to be cached: those outside every boundary that are not unversioned artifacts of such a row |
| `StatusLaws.SnapshotLaw` | crates/subversionr-daemon/src/state.rs:760-789 | after a snapshot a path is cached exactly if a reported row that remains has it and is projectable, as that row with the snapshot's generation; the remote cache likewise, or carried over if no remote row lies outside the boundaries |
| `StatusLaws.CheckRemoteLaw` | crates/subversionr-daemon/src/state.rs:1035-1064 | after a remote check a path is in the remote cache exactly if a reported remote row outside the boundaries has it and is remotely projectable, as that row with the check's generation; the local cache is untouched, and a failed check changes nothing |
| `StatusLaws.RecoveryLaw` | crates/subversionr-daemon/src/state.rs:2657-2671 | after a recovery a path is cached exactly if a row found that remains has it and is projectable, as that row with the planned generation; the remote cache is untouched |
| `StatusLaws.CountLaw` | crates/subversionr-daemon/src/state.rs:5471-5478 | a count reaches the client as the signed 32-bit number equal to it modulo 2^32 |
| `RefreshLaws.ActiveTargetsInOrder` | crates/subversionr-daemon/src/state.rs:834-846 | the targets scanned are exactly the given ones outside every boundary, in their order |
| `RefreshLaws.ScanPairs` | crates/subversionr-daemon/src/state.rs:847-863 | each target is paired with the rows left of its own scan |
| `RefreshLaws.MergeOrigin` | crates/subversionr-daemon/src/state.rs:882-937 | a row is cached after any list of scans exactly if it was cached before or some scan shows it, and every later scan shows nothing at its path, does not cover it and knows no artifact list that hides it |
| `RefreshLaws.RefreshLaw` | crates/subversionr-daemon/src/state.rs:833-947 | a refresh with a failed scan changes nothing; otherwise its local cache holds exactly the rows that the old cache or some answer brings and that every later answer leaves, said of the rows reported; nothing else but the generation changes |
| `RefreshLaws.RefreshLeavesUntouched` | crates/subversionr-daemon/src/state.rs:882-937 | in a refresh a cached row that no target covers, no answer reports and no artifact list hides is unchanged |
| `RefreshLaws.RefreshDropsMissing` | crates/subversionr-daemon/src/state.rs:920-929 | in a refresh a path whose rows one target covers, missing from that target's answer and all later ones, is gone |
| `RefreshLaws.RefreshStoresLast` | crates/subversionr-daemon/src/state.rs:891-918 | in a refresh the last answer that reports a row decides it, unless a later target covers it: cached with the refresh's generation if projectable, absent otherwise |
| `SessionLaws.StatusRequestFrame` | crates/subversionr-daemon/src/state.rs:3084-3167 | a status request is served exactly if its session is open and no lane overlaps the session's root, and then changes no other session and no lane |
| `SessionLaws.SnapshotRequestLaw` | crates/subversionr-daemon/src/state.rs:741-789 | the session a served snapshot leaves is the one described by the rows reported |
| `SessionLaws.CheckRequestLaw` | crates/subversionr-daemon/src/state.rs:978-1064 | the session a served remote check leaves is the one described by the rows reported |
| `SessionLaws.RefreshRequestLaw` | crates/subversionr-daemon/src/state.rs:810-947 | the session a served refresh leaves is the one described by the rows reported |
| `SessionLaws.BoundaryIsReadBack` | crates/subversionr-daemon/src/state.rs:3389-3402 | a proper path joined to the root is found again as a boundary, whatever slashes the root ends in |
| `SessionLaws.OpenLaw` | crates/subversionr-daemon/src/state.rs:585-665 | a session is opened exactly if a repository was found, its id is not open and every boundary is proper; it has a fresh epoch, generation 1, empty caches and exactly the boundaries asked for, and nothing else changes |
| `SessionLaws.CloseLaw` | crates/subversionr-daemon/src/state.rs:711-739 | closing removes the session of this id and epoch and changes nothing else |
| `SessionLaws.OpenRequestLaw` | crates/subversionr-daemon/src/state.rs:585-665 | a request opens a session exactly if it can be opened and no lane overlaps a path of the request |
| `SessionLaws.CloseRequestLaw` | crates/subversionr-daemon/src/state.rs:711-739 | a request closes a session exactly if it is open and no lane overlaps its root |
| `SessionLaws.RelocateRequestLaw` | crates/subversionr-daemon/src/state.rs:2200-2215 | a served relocation changes the root of its session and nothing else |
| `SessionLaws.ClosedStaysClosed` | crates/subversionr-daemon/src/state.rs:585-739 | in every run a closed session is never open again under its epoch |
| `SessionLaws.ShutdownIsFinal` | crates/subversionr-daemon/src/stdio.rs:97-273 | in every run no request is served after a shutdown or once the end of the connection was noticed |
| `LaneLaws.CheckoutLaunchedIff` | crates/subversionr-daemon/src/state.rs:2795-2945 | a checkout is launched exactly if no lane overlaps its target and its id is not in use; it then holds its target's lane |
| `LaneLaws.RemoteOperationLaunchedIff` | crates/subversionr-daemon/src/state.rs:2795-2945 | a remote operation is launched exactly if its session is open, no lane overlaps the root and its id is not in use; it then holds the root's lane |
| `LaneLaws.ReserveRefusals` | crates/subversionr-daemon/src/state.rs:2891-2945 | a launch is refused for its own id exactly if that is in use, and else for what its lane is doing |
| `LaneLaws.RecoveryLaunchedIff` | crates/subversionr-daemon/src/state.rs:2387-2595 | a recovery is launched exactly if its ids differ, its own is new, its session is open and the root's lane is free or waits for this origin with fewer than 64 ids used; it then holds the lane, with a plan of the session's generation and boundaries; a lane with 64 ids used is blocked; any other refusal changes nothing |
| `LaneLaws.RecoveryRefusals` | crates/subversionr-daemon/src/state.rs:2387-2569 | each refusal of a recovery is given under its own exact condition |
| `LaneLaws.RecoveryIsOffered` | crates/subversionr-daemon/src/state.rs:2484-2545 | in a consistent loop an indeterminate lane accepts a recovery with a new id exactly if fewer than 64 were launched since its incident |
| `LaneLaws.RecoverySucceeds` | crates/subversionr-daemon/src/state.rs:2597-2690 | a recovery that found rows frees its lane and leaves its session as described by those rows; other sessions and lanes stay |
| `LaneLaws.RecoveryFails` | crates/subversionr-daemon/src/state.rs:2704-2776 | a recovery that failed leaves sessions alone and its lane blocked if that is the reason, or else waiting with one more id used |
| `LaneLaws.CompletedRecoverySettles` | crates/subversionr-daemon/src/stdio.rs:759-782 | a completed recovery frees its lane exactly if it found rows, and blocks it exactly if that is the failure |
| `LaneLaws.UnstartedOperationLeavesNoTrace` | crates/subversionr-daemon/src/stdio.rs:165-221 | an operation whose worker does not start, or that meets a lost connection, leaves daemon and running work as they were |
| `LaneLaws.UnstartedRecoveryUsesItsId` | crates/subversionr-daemon/src/stdio.rs:225-263 | a recovery whose thread does not start leaves the lane as a failed one would |
| `LoopLaws.WorkBegunIff` | crates/subversionr-daemon/src/stdio.rs:165-263 | work is begun exactly if dispatch asked for it, its thread started and the connection is there; its request's ticket then waits, otherwise it is closed at once |
| `LoopLaws.WorkStep` | crates/subversionr-daemon/src/stdio.rs:734-834 | work ends at its own completion and at no other event; that closes its ticket, as answered exactly if the connection is there |
| `LoopLaws.WorkRunsOn` | crates/subversionr-daemon/src/stdio.rs:68-274 | in every run work goes on, with the ticket of the request that began it waiting, until its completion |
| `LoopLaws.CompletionAnswersItsRequest` | crates/subversionr-daemon/src/stdio.rs:734-834 | in every run the first completion closes the ticket of the request that began the work, and no other |
| `LoopLaws.CompletedWorkerSettles` | crates/subversionr-daemon/src/state.rs:2947-3082 | a settled worker changes its own lane and forgets its own id; sessions and other lanes stay |
| `FenceLaws.SettledCallIsOff` | crates/subversionr-daemon/src/remote_worker_windows.rs:521-538 | a call that settles clean leaves no registration behind; one that keeps a live process leaves it in the table |
| `FenceLaws.PollFindsIdleIff` | crates/subversionr-daemon/src/remote_worker_windows.rs:482-508 | a poll finds the registry idle exactly if no call holds a reservation and no job in the table has a live process |
| `CancellationLaws.RecordLaw` | crates/subversionr-daemon/src/stdio.rs:1017-1031 | a cancellation marks the token of the first active request with its id and nothing else, or else only enters the queue |
| `CancellationLaws.DisconnectLaw` | crates/subversionr-daemon/src/stdio.rs:1043-1051 | a disconnect marks exactly the running tokens of requests under way |
| `CancellationLaws.TokenLife` | crates/subversionr-daemon/src/stdio.rs:990-1051 | in every run a token is cancelled exactly if a cancellation waited for its request or has met it since, and disconnected exactly if not and a disconnect found the request under way |
| `CancellationLaws.UnderwayIff` | crates/subversionr-daemon/src/stdio.rs:995-1041 | in every run a request is under way from its beginning until the event that ends it |
| `CancellationLaws.EndedTokenIsSettled` | crates/subversionr-daemon/src/stdio.rs:1017-1051 | in every run the token of an ended request keeps its state |
| `BrokerLaws.OfferLaw` | crates/subversionr-daemon/src/stdio.rs:606-649 | exactly when a call is taken, and what becomes of the table either way |
| `BrokerLaws.CallStep` | crates/subversionr-daemon/src/stdio.rs:606-732 | exactly which event ends a waiting call and with which reply: answer, late, refused, malformed, cancelled, timed out or unavailable |
| `BrokerLaws.CallWaits` | crates/subversionr-daemon/src/stdio.rs:606-732 | in every run a call taken waits under its id and ticket as long as no event ends it |
| `BrokerLaws.FirstReplyIsFinal` | crates/subversionr-daemon/src/stdio.rs:606-732 | in every run the first event that ends a call decides for good what its ticket was told |
| `WorkerProtocol.UnderstoodIff` | crates/subversionr-daemon/src/remote_worker.rs:885-940 | a reply is taken as credentials, acknowledgement or failure exactly if it is the frame of that kind with this version, operation and number |
| `WorkerProtocol.AcceptedIffSent` | crates/subversionr-daemon/src/remote_worker_windows.rs:1003-1062 | the daemon accepts exactly the frames the worker would send under the expected number for a call of this operation |
| `WireFailures.FinalPassesIff` | crates/subversionr-daemon/src/remote_worker_windows.rs:1141-1191 | exactly which failures a worker's final frame may carry |

## Left out

- JSON parsing, JSON-RPC envelopes and the field-by-field validators of request options: many easy branches.
- The bridge to libsvn, its foreign-function code and the path functions of native.rs: a scan or an identity is a parameter.
- remote.rs: trust state, envelope and profile validation; the model starts from an accepted envelope.
- Notifications, connection states, timestamps, message keys and capability flags.
- Operations that change a working copy locally: to the lanes and the cache they are gated requests that change neither.
- Write errors and panics, poisoned mutexes among them: the loop ends there.
- Overflow of the 64-bit epoch and generation counters.
- The order of rows in replies and deltas: lists are described by their contents.
- Credential calls the daemon makes for itself while it serves a request: only that they retire ids.
- Ignore patterns of discovery: a predicate on paths. Directory names that are not Unicode, which the walk skips, are absent from the tree.
- Sorting is the standard library's in the daemon; here an insertion sort stands for it.
- Conversion of the command line to UTF-16: characters are Unicode scalars.
- Win32 calls: reduced to spawning, containing, registering, terminating and counting processes. That terminating a job kills its processes is not assumed, only that a count of zero is right and that none starts from nothing.
- Deadlines of workers, and the polling loops around one poll of the registry: a poll may happen at any time.
- TotalsTelescopeInEveryRun: assumes scans without repeated paths and counts below 2^31, since a list that repeats a path is counted twice in a snapshot and once in the cache.
- FullRefreshRefinesSnapshot: assumes a scan without repeated paths, as the bridge delivers.
- SnapshotLaw: assumes scans without repeated paths, as the bridge delivers.
- CheckRemoteLaw: assumes scans without repeated paths, as the bridge delivers.
- RecoveryLaw: assumes rows without repeated paths, as the bridge delivers.
- RefreshLaw: assumes scans without repeated paths, as the bridge delivers.
- TokenLife: assumes that each request gets a token of its own, as the daemon makes one per request.
- Failure classes other than the two that lanes store; no failure is classified as one that calls for cleanup, so the flag stored with a blocked lane is always false (crates/subversionr-daemon/src/remote.rs:235-336).
