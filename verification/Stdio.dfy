/** The daemon's main loop around the lanes: requests are dispatched one at a time, remote work runs
    beside the loop, and completions are settled as they arrive. */
module Stdio {
  import opened Options
  import opened Paths
  import opened Status
  import opened Lanes
  import opened Ledger

  datatype Request =
    /** `repository/checkout` from a remote URL into an absolute target. */
    | Checkout(target: string, operation: string)
    /** Any other request that needs the network for an open repository. */
    | RemoteOperation(repository: string, epoch: nat, operation: string, effect: Effect)
    | Recover(repository: string, epoch: nat, origin: string, operation: string)
    | OpenRepository(paths: set<string>, found: Option<Identity>)
    | CloseRepository(repository: string, epoch: nat)
    | GetSnapshot(repository: string, epoch: nat, outcome: Option<Scan>)
    | RefreshStatus(repository: string, epoch: nat, targets: seq<Target>, answers: seq<Option<Scan>>)
    /** `status/checkRemote` of a repository behind a file URL, served in place. */
    | CheckLocally(repository: string, epoch: nat, outcome: Option<Scan>)
    /** A relocation that ended with a refreshed identity of the same repository id. */
    | Relocate(repository: string, epoch: nat, root: string)
    /** A gated request that changes neither sessions nor lanes, including every rejected one. */
    | Inspect(subject: Option<string>, paths: set<string>)
    /** `initialize`, `workspaceTrust/update`, `diagnostics/get`: not gated. */
    | Ungated
    | Shutdown

  /** What dispatch hands back to the loop. */
  datatype Dispatched = Replied | Launched(launch: LaunchPlan) | RecoveryLaunched(plan: RecoveryPlan)

  predicate BypassesGate(r: Request) { r.Recover? || r.Ungated? || r.Shutdown? }

  function KeysOf(d: Daemon, r: Request): set<string> {
    match r
    case Checkout(target, _) => RequestKeys(d, None, {target})
    case RemoteOperation(repository, _, _, _) => RequestKeys(d, Some(repository), {})
    case OpenRepository(paths, _) => RequestKeys(d, None, paths)
    case CloseRepository(repository, _) => RequestKeys(d, Some(repository), {})
    case GetSnapshot(repository, _, _) => RequestKeys(d, Some(repository), {})
    case RefreshStatus(repository, _, _, _) => RequestKeys(d, Some(repository), {})
    case CheckLocally(repository, _, _) => RequestKeys(d, Some(repository), {})
    case Relocate(repository, _, _) => RequestKeys(d, Some(repository), {})
    case Inspect(subject, paths) => RequestKeys(d, subject, paths)
    case _ => {}
  }

  function EpochOf(d: Daemon, repository: Option<string>): Option<nat> {
    if repository.Some? && repository.value in d.repositories
    then Some(d.repositories[repository.value].epoch) else None
  }

  /** `begin_remote_preflight` once the envelope has been accepted. */
  function Preflight(d: Daemon, path: string, operation: string, effect: Effect, attribution: Option<string>): (Daemon,
      Dispatched)
  {
    var key := AbsoluteKey(path);
    if ReserveRefusal(d, key, operation).Some? then (d, Replied)
    else (Reserve(d, key, operation, effect, attribution, EpochOf(d, attribution)),
          Launched(LaunchPlan(key, operation, effect)))
  }

  /** Requests that the daemon serves on the spot. */
  function Served(d: Daemon, r: Request): (d': Daemon)
    ensures d'.lanes == d.lanes && d'.activeIds == d.activeIds
  {
    match r
    case OpenRepository(_, found) => Open(d, found)
    case CloseRepository(repository, epoch) => Close(d, repository, epoch)
    case GetSnapshot(repository, epoch, outcome) =>
      if !IsOpen(d, repository, epoch) then d
      else WithSession(d, repository, TakeSnapshot(d.repositories[repository], outcome))
    case RefreshStatus(repository, epoch, targets, answers) =>
      if !IsOpen(d, repository, epoch) then d
      else WithSession(d, repository, Refresh(d.repositories[repository], targets, answers))
    case CheckLocally(repository, epoch, outcome) =>
      if !IsOpen(d, repository, epoch) then d
      else WithSession(d, repository, CheckRemote(d.repositories[repository], outcome))
    case Relocate(repository, epoch, root) =>
      if IsOpen(d, repository, epoch) then WithSession(d, repository, d.repositories[repository].(root := root)) else d
    case _ => d
  }

  /** `dispatch_request_with_auth_and_cancellation`; `attribution` is the session found for the lane. */
  ghost function Dispatch(d: Daemon, r: Request, attribution: Option<string>): (Daemon, Dispatched) {
    if !BypassesGate(r) && Gated(d, KeysOf(d, r)) then (d, Replied)
    else
      match r
      case Checkout(target, operation) => Preflight(d, target, operation, Mutation, attribution)
      case RemoteOperation(repository, epoch, operation, effect) =>
        if !IsOpen(d, repository, epoch) then (d, Replied)
        else Preflight(d, d.repositories[repository].root, operation, effect, attribution)
      case Recover(repository, epoch, origin, operation) =>
        var start := RecoveryStartOf(d, repository, epoch, origin, operation);
        (StartRecovery(d, repository, epoch, origin, operation),
         if start.Launch? then RecoveryLaunched(start.plan) else Replied)
      case _ => (Served(d, r), Replied)
  }

  /** Work that runs beside the loop, until its completion is taken off the channel. */
  datatype Work = Worker(launch: LaunchPlan) | RecoveryTask(plan: RecoveryPlan)
  {
    function Key(): string { if Worker? then launch.laneKey else plan.laneKey }
    function Operation(): string { if Worker? then launch.operation else plan.operation }
  }

  /** `book` issues one ticket per received request, waiting under its operation id in `pending`.
      `dropped` counts the tickets closed without a response. `attempts` remembers, for each lane, the
      recoveries launched since its incident began. */
  datatype Loop = Loop(
    daemon: Daemon, book: Book, dropped: multiset<nat>, running: map<string, Work>,
    disconnected: bool, terminal: bool, fatal: bool, attempts: map<string, seq<string>>)

  datatype Event =
    /** The reader thread saw the end of the connection. */
    | Disconnect
    /** The loop noticed it. */
    | Stop
    /** A request was dispatched; if it needed a thread, that started or failed with `failure`. */
    | Receive(request: Request, attribution: Option<string>, started: bool, failure: FailureClass)
    | WorkerDone(operation: string, settlement: Settlement)
    | RecoveryDone(operation: string, result: RecoveryResult)

  function Quiet(l: Loop): bool { l.terminal || l.disconnected }

  ghost predicate Enabled(l: Loop, ev: Event) {
    && !l.fatal
    && match ev
       case Disconnect => true
       case Stop => l.disconnected
       case Receive(r, attribution, _, _) =>
         && !l.terminal
         && (r.Checkout? ==> Attributes(l.daemon, AbsoluteKey(r.target), attribution))
         && (r.RemoteOperation? && IsOpen(l.daemon, r.repository, r.epoch) ==>
               Attributes(l.daemon, AbsoluteKey(l.daemon.repositories[r.repository].root), attribution))
       case WorkerDone(operation, _) => operation in l.running && l.running[operation].Worker?
       case RecoveryDone(operation, _) => operation in l.running && l.running[operation].RecoveryTask?
  }

  /** Closes the waiting ticket of a finished operation; without one the loop dies. */
  function Finish(l: Loop, operation: string): Loop {
    if operation !in l.book.open then l.(fatal := true)
    else l.(book := CloseKey(l.book, operation), running := l.running - {operation},
            dropped := if Quiet(l) then l.dropped + multiset{l.book.open[operation]} else l.dropped)
  }

  /** A request answered, or dropped because the connection is gone, within its own iteration. */
  function Answered(l: Loop): Loop { l.(book := IssueClosed(l.book)) }

  function Abandoned(l: Loop): Loop {
    l.(book := IssueClosed(l.book), dropped := l.dropped + multiset{l.book.issued})
  }

  function Started(l: Loop, work: Work): Loop {
    l.(book := IssueOpen(l.book, work.Operation()), running := l.running[work.Operation() := work])
  }

  function PastAttempts(l: Loop, key: string): seq<string> {
    if key in l.daemon.lanes && key in l.attempts then l.attempts[key] else []
  }

  ghost function Next(l: Loop, ev: Event): Loop
    requires Enabled(l, ev)
  {
    match ev
    case Disconnect => l.(disconnected := true)
    case Stop => l.(terminal := true)
    case Receive(r, attribution, started, failure) => Received(l, r, attribution, started, failure)
    case WorkerDone(operation, settlement) => FinishedWorker(l, operation, settlement)
    case RecoveryDone(operation, result) =>
      Finish(l.(daemon := SettleRecovery(l.daemon, l.running[operation].plan, result)), operation)
  }

  function FinishedWorker(l: Loop, operation: string, settlement: Settlement): Loop
    requires operation in l.running && l.running[operation].Worker?
  {
    var launch := l.running[operation].launch;
    var d := SettleLaunch(l.daemon, launch.laneKey, operation, settlement);
    var attempts := if launch.laneKey in d.lanes && d.lanes[launch.laneKey].Recovering?
                    then l.attempts[launch.laneKey := []] else l.attempts;
    Finish(l.(daemon := d, attempts := attempts), operation)
  }

  ghost function Received(l: Loop, r: Request, attribution: Option<string>, started: bool, failure: FailureClass): Loop
  {
    var (d, outcome) := Dispatch(l.daemon, r, attribution);
    Settled(l, d, outcome, r.Shutdown?, started, failure)
  }

  /** The rest of the iteration, once dispatch has turned the daemon into `d`. */
  function Settled(l: Loop, d: Daemon, outcome: Dispatched, shutdown: bool, started: bool, failure: FailureClass): Loop
  {
    var l' := l.(daemon := d);
    match outcome
    case Replied => Answered(l'.(terminal := l.terminal || shutdown))
    case Launched(launch) =>
      if l.disconnected || !started then
        var settled :=
          l'.(daemon := SettleLaunch(d, launch.laneKey, launch.operation, PreLaunchFailure(launch.effect)));
        if l.disconnected then Abandoned(settled) else Answered(settled)
      else Started(l', Worker(launch))
    case RecoveryLaunched(plan) =>
      var noted := l'.(attempts := l.attempts[plan.laneKey := PastAttempts(l, plan.laneKey) + [plan.operation]]);
      if l.disconnected || !started then
        var settled :=
          noted.(daemon := SettleRecovery(d, plan, RecoveryFailed(if l.disconnected then OtherFailure else failure)));
        if l.disconnected then Abandoned(settled) else Answered(settled)
      else Started(noted, RecoveryTask(plan))
  }

  const START :=
    Loop(Daemon(map[], 1, map[], {}), Book(0, map[], multiset{}), multiset{}, map[], false, false, false, map[])
}
