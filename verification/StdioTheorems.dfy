/** What holds in every run of the main loop: which branches are never taken, that each request is
    answered once, and what becomes of a working copy left in an unknown state. */
module StdioTheorems {
  import opened Options
  import opened Paths
  import opened Status
  import opened Lanes
  import opened Ledger
  import opened Stdio
  import opened LaneTheorems
  import StatusTheorems

  predicate NoRepeats(s: seq<string>) {
    forall i, j :: 0 <= i < j < |s| ==> s[i] != s[j]
  }

  function Elements(s: seq<string>): set<string> { set x | x in s }

  /** The recoveries launched on an indeterminate lane: the used ids and the running one, each once. */
  predicate AttemptOk(lane: Lane, key: string, attempts: map<string, seq<string>>)
    requires lane.Recovering?
  {
    && key in attempts && NoRepeats(attempts[key])
    && Elements(attempts[key]) == lane.used + (if lane.recovery.Some? then {lane.recovery.value} else {})
  }

  predicate AttemptsOk(d: Daemon, attempts: map<string, seq<string>>) {
    forall key :: key in d.lanes && d.lanes[key].Recovering? ==> AttemptOk(d.lanes[key], key, attempts)
  }

  ghost predicate LoopOk(l: Loop) {
    && !l.fatal
    && DaemonOk(l.daemon, l.running)
    && Balanced(l.book) && l.book.open.Keys == l.running.Keys
    && l.dropped <= l.book.closed && (l.dropped != multiset{} ==> Quiet(l))
    && AttemptsOk(l.daemon, l.attempts)
  }

  // ---- One request ----

  lemma GateCovers(d: Daemon, keys: set<string>, key: string)
    requires !Gated(d, keys) && key in keys
    ensures !Gated(d, {key})
  {
  }

  ghost predicate GoodAttribution(d: Daemon, r: Request, attribution: Option<string>) {
    && (r.Checkout? ==> Attributes(d, AbsoluteKey(r.target), attribution))
    && (r.RemoteOperation? && IsOpen(d, r.repository, r.epoch) ==>
          Attributes(d, AbsoluteKey(d.repositories[r.repository].root), attribution))
  }

  lemma PreflightKeeps(d: Daemon, running: Running, path: string, operation: string, effect: Effect,
      attribution: Option<string>)
    requires DaemonOk(d, running) && Attributes(d, AbsoluteKey(path), attribution) && !Gated(d, {AbsoluteKey(path)})
    ensures DispatchedOk(d, running, Preflight(d, path, operation, effect, attribution))
  {
    if ReserveRefusal(d, AbsoluteKey(path), operation).None? {
      ReserveKeeps(d, running, AbsoluteKey(path), operation, effect, attribution);
    }
  }

  /** What dispatch leaves: a consistent daemon once the launched work counts as running, and launched
      work that is new. */
  predicate DispatchedOk(d: Daemon, running: Running, result: (Daemon, Dispatched)) {
    match result.1
    case Replied => DaemonOk(result.0, running)
    case Launched(launch) =>
      && launch.operation !in d.activeIds && launch.laneKey !in d.lanes
      && DaemonOk(result.0, running[launch.operation := Worker(launch)])
    case RecoveryLaunched(plan) =>
      && plan.operation !in d.activeIds
      && DaemonOk(result.0, running[plan.operation := RecoveryTask(plan)])
  }

  /** A request that replaces an unused session by a consistent one of the same epoch. */
  lemma SessionChangeKeeps(d: Daemon, running: Running, repository: string, epoch: nat, s: Session)
    requires DaemonOk(d, running) && !Gated(d, RequestKeys(d, Some(repository), {})) && IsOpen(d, repository, epoch)
    requires StatusTheorems.SessionOk(s) && s.epoch == epoch
    ensures DaemonOk(WithSession(d, repository, s), running)
  {
    PassingTheGateMeansUnused(d, running, repository);
    ChangeSession(d, running, repository, s);
  }

  lemma SnapshotRequestKeeps(d: Daemon, running: Running, r: Request)
    requires DaemonOk(d, running) && !Gated(d, KeysOf(d, r)) && r.GetSnapshot?
    ensures DaemonOk(Served(d, r), running)
  {
    if IsOpen(d, r.repository, r.epoch) {
      var s := d.repositories[r.repository];
      StatusTheorems.SnapshotKeepsSession(s, r.outcome);
      SessionChangeKeeps(d, running, r.repository, r.epoch, TakeSnapshot(s, r.outcome));
    }
  }

  lemma RefreshRequestKeeps(d: Daemon, running: Running, r: Request)
    requires DaemonOk(d, running) && !Gated(d, KeysOf(d, r)) && r.RefreshStatus?
    ensures DaemonOk(Served(d, r), running)
  {
    if IsOpen(d, r.repository, r.epoch) {
      var s := d.repositories[r.repository];
      StatusTheorems.RefreshKeepsSession(s, r.targets, r.answers);
      SessionChangeKeeps(d, running, r.repository, r.epoch, Refresh(s, r.targets, r.answers));
    }
  }

  lemma CheckRequestKeeps(d: Daemon, running: Running, r: Request)
    requires DaemonOk(d, running) && !Gated(d, KeysOf(d, r)) && r.CheckLocally?
    ensures DaemonOk(Served(d, r), running)
  {
    if IsOpen(d, r.repository, r.epoch) {
      var s := d.repositories[r.repository];
      var s' := CheckRemote(s, r.outcome);
      assert StatusTheorems.SessionOk(s') && s'.epoch == r.epoch by {
        StatusTheorems.CheckRemoteKeepsSession(s, r.outcome);
      }
      SessionChangeKeeps(d, running, r.repository, r.epoch, s');
      assert Served(d, r) == WithSession(d, r.repository, s');
    }
  }

  lemma MovedSessionIsOk(s: Session, root: string)
    requires StatusTheorems.SessionOk(s)
    ensures StatusTheorems.SessionOk(s.(root := root))
  {
  }

  lemma RelocateRequestKeeps(d: Daemon, running: Running, r: Request)
    requires DaemonOk(d, running) && !Gated(d, KeysOf(d, r)) && r.Relocate?
    ensures DaemonOk(Served(d, r), running)
  {
    if IsOpen(d, r.repository, r.epoch) {
      var s := d.repositories[r.repository];
      MovedSessionIsOk(s, r.root);
      SessionChangeKeeps(d, running, r.repository, r.epoch, s.(root := r.root));
      assert Served(d, r) == WithSession(d, r.repository, s.(root := r.root));
    }
  }

  lemma CloseRequestKeeps(d: Daemon, running: Running, r: Request)
    requires DaemonOk(d, running) && !Gated(d, KeysOf(d, r)) && r.CloseRepository?
    ensures DaemonOk(Served(d, r), running)
  {
    if r.repository in d.repositories {
      PassingTheGateMeansUnused(d, running, r.repository);
    }
    CloseKeeps(d, running, r.repository, r.epoch);
  }

  lemma ServedKeeps(d: Daemon, running: Running, r: Request)
    requires DaemonOk(d, running) && (BypassesGate(r) || !Gated(d, KeysOf(d, r)))
    ensures DaemonOk(Served(d, r), running)
  {
    match r
    case OpenRepository(_, found) => OpenKeeps(d, running, found);
    case CloseRepository(_, _) => CloseRequestKeeps(d, running, r);
    case GetSnapshot(_, _, _) => SnapshotRequestKeeps(d, running, r);
    case RefreshStatus(_, _, _, _) => RefreshRequestKeeps(d, running, r);
    case CheckLocally(_, _, _) => CheckRequestKeeps(d, running, r);
    case Relocate(_, _, _) => RelocateRequestKeeps(d, running, r);
    case _ =>
  }

  lemma LaunchingKeeps(d: Daemon, running: Running, r: Request, attribution: Option<string>)
    requires DaemonOk(d, running) && GoodAttribution(d, r, attribution) && !Gated(d, KeysOf(d, r))
    requires r.Checkout? || r.RemoteOperation?
    ensures DispatchedOk(d, running, Dispatch(d, r, attribution))
  {
    match r
    case Checkout(target, operation) =>
      GateCovers(d, KeysOf(d, r), AbsoluteKey(target));
      PreflightKeeps(d, running, target, operation, Mutation, attribution);
    case RemoteOperation(repository, epoch, operation, effect) =>
      if IsOpen(d, repository, epoch) {
        GateCovers(d, KeysOf(d, r), AbsoluteKey(d.repositories[repository].root));
        PreflightKeeps(d, running, d.repositories[repository].root, operation, effect, attribution);
      }
  }

  lemma RecoverDispatchKeeps(d: Daemon, running: Running, r: Request, attribution: Option<string>)
    requires DaemonOk(d, running) && r.Recover?
    ensures DispatchedOk(d, running, Dispatch(d, r, attribution))
  {
    StartRecoveryKeeps(d, running, r.repository, r.epoch, r.origin, r.operation);
  }

  lemma DispatchKeeps(d: Daemon, running: Running, r: Request, attribution: Option<string>)
    requires DaemonOk(d, running) && GoodAttribution(d, r, attribution)
    ensures DispatchedOk(d, running, Dispatch(d, r, attribution))
  {
    if BypassesGate(r) || !Gated(d, KeysOf(d, r)) {
      if r.Checkout? || r.RemoteOperation? {
        LaunchingKeeps(d, running, r, attribution);
      } else if r.Recover? {
        RecoverDispatchKeeps(d, running, r, attribution);
      } else {
        ServedKeeps(d, running, r);
      }
    }
  }

  // ---- The history of recoveries ----

  lemma SameLanesSameAttempts(d: Daemon, d': Daemon, attempts: map<string, seq<string>>)
    requires AttemptsOk(d, attempts)
    requires forall key :: key in d'.lanes && d'.lanes[key].Recovering? ==>
      key in d.lanes && d'.lanes[key] == d.lanes[key]
    ensures AttemptsOk(d', attempts)
  {
  }

  lemma OneMoreAttempt(past: seq<string>, operation: string)
    requires NoRepeats(past) && operation !in Elements(past)
    ensures NoRepeats(past + [operation]) && Elements(past + [operation]) == Elements(past) + {operation}
  {
    assert forall i :: 0 <= i < |past| ==> past[i] in Elements(past);
  }

  lemma PastAreUsed(l: Loop, key: string)
    requires AttemptsOk(l.daemon, l.attempts)
    requires key in l.daemon.lanes ==> l.daemon.lanes[key].Recovering? && l.daemon.lanes[key].recovery.None?
    ensures NoRepeats(PastAttempts(l, key)) && Elements(PastAttempts(l, key)) == UsedIds(l.daemon, key)
  {
    if key in l.daemon.lanes {
      assert AttemptOk(l.daemon.lanes[key], key, l.attempts);
    }
  }

  lemma OneRecoveryMore(d: Daemon, d': Daemon, attempts: map<string, seq<string>>, key: string, tried: seq<string>)
    requires AttemptsOk(d, attempts) && key in d'.lanes && d'.lanes == d.lanes[key := d'.lanes[key]]
    requires d'.lanes[key].Recovering? && AttemptOk(d'.lanes[key], key, attempts[key := tried])
    ensures AttemptsOk(d', attempts[key := tried])
  {
    forall k | k in d'.lanes && d'.lanes[k].Recovering? && k != key
      ensures AttemptOk(d'.lanes[k], k, attempts[key := tried]) {
      assert AttemptOk(d.lanes[k], k, attempts);
    }
  }

  lemma RecoveryLaunchKeepsAttempts(l: Loop, plan: RecoveryPlan)
    requires AttemptsOk(l.daemon, l.attempts)
    requires RecoveryStartOf(l.daemon, plan.repository, plan.epoch, plan.origin, plan.operation) == Launch(plan)
    ensures AttemptsOk(StartRecovery(l.daemon, plan.repository, plan.epoch, plan.origin, plan.operation),
                       l.attempts[plan.laneKey := PastAttempts(l, plan.laneKey) + [plan.operation]])
  {
    var d' := StartRecovery(l.daemon, plan.repository, plan.epoch, plan.origin, plan.operation);
    PastAreUsed(l, plan.laneKey);
    OneMoreAttempt(PastAttempts(l, plan.laneKey), plan.operation);
    OneRecoveryMore(l.daemon, d', l.attempts, plan.laneKey, PastAttempts(l, plan.laneKey) + [plan.operation]);
  }

  lemma RecoverySettledKeepsAttempts(d: Daemon, plan: RecoveryPlan, result: RecoveryResult, attempts: map<string,
      seq<string>>)
    requires RecoveryMatches(d, plan) && AttemptsOk(d, attempts)
    ensures AttemptsOk(SettleRecovery(d, plan, result), attempts)
  {
    var lane, key, d' := d.lanes[plan.laneKey], plan.laneKey, SettleRecovery(d, plan, result);
    assert AttemptOk(lane, key, attempts);
    match RecoveryReplyOf(d, plan, result)
    case StaysIndeterminate =>
      assert d'.lanes[key].used == lane.used + {plan.operation};
      assert attempts[key := attempts[key]] == attempts;
      OneRecoveryMore(d, d', attempts, key, attempts[key]);
    case _ => SameLanesSameAttempts(d, SettleRecovery(d, plan, result), attempts);
  }

  // ---- One event ----

  /** Only a recovery request touches an indeterminate lane. */
  lemma DispatchSparesRecoveries(d: Daemon, r: Request, attribution: Option<string>)
    ensures var (d', outcome) := Dispatch(d, r, attribution);
            if outcome.RecoveryLaunched? then
              r.Recover? && RecoveryStartOf(d, r.repository, r.epoch, r.origin, r.operation) == Launch(outcome.plan)
              && d' == StartRecovery(d, r.repository, r.epoch, r.origin, r.operation)
            else
              forall key :: key in d'.lanes && d'.lanes[key].Recovering? ==>
                key in d.lanes && d'.lanes[key] == d.lanes[key]
  {
  }

  function AttemptsAfter(l: Loop, outcome: Dispatched): map<string, seq<string>> {
    if outcome.RecoveryLaunched?
    then l.attempts[outcome.plan.laneKey := PastAttempts(l, outcome.plan.laneKey) + [outcome.plan.operation]]
    else l.attempts
  }

  lemma DispatchKeepsAttempts(l: Loop, r: Request, attribution: Option<string>)
    requires AttemptsOk(l.daemon, l.attempts)
    ensures var (d, outcome) := Dispatch(l.daemon, r, attribution); AttemptsOk(d, AttemptsAfter(l, outcome))
  {
    var (d, outcome) := Dispatch(l.daemon, r, attribution);
    DispatchSparesRecoveries(l.daemon, r, attribution);
    if outcome.RecoveryLaunched? {
      RecoveryLaunchKeepsAttempts(l, outcome.plan);
    } else {
      SameLanesSameAttempts(l.daemon, d, l.attempts);
    }
  }

  lemma ReceiveKeeps(l: Loop, r: Request, attribution: Option<string>, started: bool, failure: FailureClass)
    requires LoopOk(l) && GoodAttribution(l.daemon, r, attribution) && !l.terminal
    ensures LoopOk(Received(l, r, attribution, started, failure))
  {
    var (d, outcome) := Dispatch(l.daemon, r, attribution);
    DispatchKeeps(l.daemon, l.running, r, attribution);
    DispatchKeepsAttempts(l, r, attribution);
    SettledKeeps(l, d, outcome, r.Shutdown?, started, failure);
  }

  lemma SettledKeeps(l: Loop, d: Daemon, outcome: Dispatched, shutdown: bool, started: bool, failure: FailureClass)
    requires LoopOk(l) && DispatchedOk(l.daemon, l.running, (d, outcome))
    requires AttemptsOk(d, AttemptsAfter(l, outcome))
    ensures LoopOk(Settled(l, d, outcome, shutdown, started, failure))
  {
    match outcome
    case Replied => ClosedKeeps(l, l.(daemon := d, terminal := l.terminal || shutdown));
    case Launched(launch) => LaunchedKeeps(l, d, launch, started);
    case RecoveryLaunched(plan) => RecoveryLaunchedKeeps(l, d, plan, started, failure);
  }

  lemma ClosedKeeps(l: Loop, l': Loop)
    requires LoopOk(l) && l'.book == l.book && l'.dropped == l.dropped && l'.running == l.running && !l'.fatal
    requires l'.disconnected == l.disconnected && (l.terminal ==> l'.terminal)
    requires DaemonOk(l'.daemon, l.running) && AttemptsOk(l'.daemon, l'.attempts)
    ensures LoopOk(Answered(l'))
    ensures l.disconnected ==> LoopOk(Abandoned(l'))
  {
    IssueClosedBalances(l.book);
  }

  lemma StartedKeeps(l: Loop, l': Loop, work: Work)
    requires LoopOk(l) && l' == l.(daemon := l'.daemon, attempts := l'.attempts)
    requires work.Operation() !in l.running
    requires DaemonOk(l'.daemon, l.running[work.Operation() := work]) && AttemptsOk(l'.daemon, l'.attempts)
    ensures LoopOk(Started(l', work))
  {
    IssueOpenBalances(l.book, work.Operation());
  }

  function Unlaunched(d: Daemon, launch: LaunchPlan): Daemon {
    SettleLaunch(d, launch.laneKey, launch.operation, PreLaunchFailure(launch.effect))
  }

  lemma LaunchedKeeps(l: Loop, d: Daemon, launch: LaunchPlan, started: bool)
    requires LoopOk(l) && AttemptsOk(d, l.attempts)
    requires DispatchedOk(l.daemon, l.running, (d, Launched(launch)))
    ensures if l.disconnected || !started then
              var settled := l.(daemon := Unlaunched(d, launch));
              LoopOk(if l.disconnected then Abandoned(settled) else Answered(settled))
            else LoopOk(Started(l.(daemon := d), Worker(launch)))
  {
    var running := l.running[launch.operation := Worker(launch)];
    if l.disconnected || !started {
      SettleLaunchKeeps(d, running, launch.operation, PreLaunchFailure(launch.effect));
      assert running - {launch.operation} == l.running;
      assert WorkOk(d, running[launch.operation], launch.operation);
      SameLanesSameAttempts(d, Unlaunched(d, launch), l.attempts);
      ClosedKeeps(l, l.(daemon := Unlaunched(d, launch)));
    } else {
      StartedKeeps(l, l.(daemon := d), Worker(launch));
    }
  }

  lemma UnlaunchedRecoveryKeeps(l: Loop, d: Daemon, plan: RecoveryPlan, attempts: map<string, seq<string>>,
      reason: FailureClass)
    requires LoopOk(l) && AttemptsOk(d, attempts)
    requires DispatchedOk(l.daemon, l.running, (d, RecoveryLaunched(plan)))
    ensures var settled := l.(daemon := SettleRecovery(d, plan, RecoveryFailed(reason)), attempts := attempts);
      LoopOk(Answered(settled)) && (l.disconnected ==> LoopOk(Abandoned(settled)))
  {
    var running := l.running[plan.operation := RecoveryTask(plan)];
    var result := RecoveryFailed(reason);
    SettleRecoveryKeeps(d, running, plan.operation, result);
    assert running - {plan.operation} == l.running;
    assert WorkOk(d, running[plan.operation], plan.operation);
    RecoverySettledKeepsAttempts(d, plan, result, attempts);
    ClosedKeeps(l, l.(daemon := SettleRecovery(d, plan, result), attempts := attempts));
  }

  lemma RecoveryLaunchedKeeps(l: Loop, d: Daemon, plan: RecoveryPlan, started: bool, failure: FailureClass)
    requires LoopOk(l)
    requires DispatchedOk(l.daemon, l.running, (d, RecoveryLaunched(plan)))
    requires AttemptsOk(d, AttemptsAfter(l, RecoveryLaunched(plan)))
    ensures var noted := l.(daemon := d, attempts := AttemptsAfter(l, RecoveryLaunched(plan)));
            if l.disconnected || !started then
              var settled :=
                noted.(daemon :=
                SettleRecovery(d, plan, RecoveryFailed(if l.disconnected then OtherFailure else failure)));
              LoopOk(if l.disconnected then Abandoned(settled) else Answered(settled))
            else LoopOk(Started(noted, RecoveryTask(plan)))
  {
    var attempts := AttemptsAfter(l, RecoveryLaunched(plan));
    if l.disconnected || !started {
      UnlaunchedRecoveryKeeps(l, d, plan, attempts, if l.disconnected then OtherFailure else failure);
    } else {
      StartedKeeps(l, l.(daemon := d, attempts := attempts), RecoveryTask(plan));
    }
  }

  lemma FinishKeeps(l: Loop, operation: string)
    requires Balanced(l.book) && operation in l.book.open && !l.fatal
    requires l.dropped <= l.book.closed && (l.dropped != multiset{} ==> Quiet(l))
    ensures var l' := Finish(l, operation);
            && Balanced(l'.book) && !l'.fatal && l'.book.open.Keys == l.book.open.Keys - {operation}
            && l'.dropped <= l'.book.closed && (l'.dropped != multiset{} ==> Quiet(l'))
  {
    CloseKeyBalances(l.book, operation);
  }

  lemma WorkerSettledKeepsAttempts(d: Daemon, key: string, operation: string, st: Settlement, attempts: map<string,
      seq<string>>)
    requires AttemptsOk(d, attempts) && Holds(d, key, operation)
    ensures var d' := SettleLaunch(d, key, operation, st);
      AttemptsOk(d', if key in d'.lanes && d'.lanes[key].Recovering? then attempts[key := []] else attempts)
  {
    var d' := SettleLaunch(d, key, operation, st);
    if key in d'.lanes && d'.lanes[key].Recovering? {
      assert Elements([]) == {};
      OneRecoveryMore(d, d', attempts, key, []);
    } else {
      SameLanesSameAttempts(d, d', attempts);
    }
  }

  lemma WorkerDoneKeeps(l: Loop, operation: string, st: Settlement)
    requires LoopOk(l) && operation in l.running && l.running[operation].Worker?
    ensures LoopOk(FinishedWorker(l, operation, st))
  {
    var key := l.running[operation].launch.laneKey;
    assert WorkOk(l.daemon, l.running[operation], operation);
    SettleLaunchKeeps(l.daemon, l.running, operation, st);
    WorkerSettledKeepsAttempts(l.daemon, key, operation, st, l.attempts);
    FinishKeeps(l, operation);
  }

  lemma RecoveryDoneKeeps(l: Loop, operation: string, result: RecoveryResult)
    requires LoopOk(l) && operation in l.running && l.running[operation].RecoveryTask?
    ensures LoopOk(Finish(l.(daemon := SettleRecovery(l.daemon, l.running[operation].plan, result)), operation))
  {
    SettleRecoveryKeeps(l.daemon, l.running, operation, result);
    assert WorkOk(l.daemon, l.running[operation], operation);
    RecoverySettledKeepsAttempts(l.daemon, l.running[operation].plan, result, l.attempts);
    FinishKeeps(l, operation);
  }

  lemma EventKeeps(l: Loop, ev: Event)
    requires LoopOk(l) && Enabled(l, ev)
    ensures LoopOk(Next(l, ev))
  {
    match ev
    case Disconnect =>
    case Stop =>
    case Receive(r, attribution, started, failure) => ReceiveKeeps(l, r, attribution, started, failure);
    case WorkerDone(operation, settlement) => WorkerDoneKeeps(l, operation, settlement);
    case RecoveryDone(operation, result) => RecoveryDoneKeeps(l, operation, result);
  }

  // ---- Runs ----

  ghost predicate Steps(ls: seq<Loop>, evs: seq<Event>, i: nat)
    requires i < |evs| && |ls| == |evs| + 1
  {
    Enabled(ls[i], evs[i]) && ls[i + 1] == Next(ls[i], evs[i])
  }

  /** `ls[i]` is the loop before event `i`. */
  ghost predicate Trace(ls: seq<Loop>, evs: seq<Event>) {
    |ls| == |evs| + 1 && forall i: nat :: i < |evs| ==> Steps(ls, evs, i)
  }

  /** The invariant holds in every state of every run, so the loop never dies of a completion
      without a pending request. */
  lemma {:induction false} EveryRunIsOk(ls: seq<Loop>, evs: seq<Event>, i: nat)
    requires Trace(ls, evs) && LoopOk(ls[0]) && i < |ls|
    ensures LoopOk(ls[i])
  {
    if i > 0 {
      EveryRunIsOk(ls, evs, i - 1);
      assert Steps(ls, evs, i - 1);
      EventKeeps(ls[i - 1], evs[i - 1]);
    }
  }

  lemma StartIsOk()
    ensures LoopOk(START)
  {
  }

  /** What every state that can be reached has: disjoint busy working copies and sessions in order. */
  lemma ReachableStatesAreOk(ls: seq<Loop>, evs: seq<Event>, i: nat)
    requires Trace(ls, evs) && ls[0] == START && i < |ls|
    ensures LoopOk(ls[i]) && ActiveDisjoint(ls[i].daemon) && SessionsOk(ls[i].daemon) && !ls[i].fatal
  {
    StartIsOk();
    EveryRunIsOk(ls, evs, i);
  }

  // ---- Branches that are never taken ----

  /** A completion always finds its pending request, its lane and, for a recovery, its session at the
      planned epoch and generation: the "settlement invalid", "session lost", half-attributed and
      "completed without a pending request" branches are unreachable. */
  lemma CompletionsFindTheirPlace(l: Loop, ev: Event)
    requires LoopOk(l) && Enabled(l, ev)
    ensures ev.WorkerDone? || ev.RecoveryDone? ==> ev.operation in l.book.open
    ensures ev.WorkerDone? ==>
              var key := l.running[ev.operation].launch.laneKey;
              && Holds(l.daemon, key, ev.operation)
              && AttributionOk(l.daemon, key, l.daemon.lanes[key].repository, l.daemon.lanes[key].epoch)
    ensures ev.RecoveryDone? ==>
              var plan := l.running[ev.operation].plan;
              && RecoveryReplyOf(l.daemon, plan, ev.result) !in {SettlementInvalid, SessionLost}
              && l.daemon.repositories[plan.repository].nextGeneration == plan.generation
  {
    if ev.WorkerDone? || ev.RecoveryDone? {
      assert WorkOk(l.daemon, l.running[ev.operation], ev.operation);
    }
    if ev.WorkerDone? {
      assert LaneOk(l.daemon, l.running, l.running[ev.operation].launch.laneKey);
    }
  }

  /** Pending requests, active ids and lane occupants are one set, with one id per lane. */
  lemma PendingAreTheOccupants(l: Loop)
    requires LoopOk(l)
    ensures l.book.open.Keys == l.daemon.activeIds
    ensures forall o :: o in l.daemon.activeIds <==>
              exists key :: key in l.daemon.lanes && Occupant(l.daemon.lanes[key]) == Some(o)
    ensures forall j, k | j in l.daemon.lanes && k in l.daemon.lanes ::
              Occupant(l.daemon.lanes[j]).Some? && Occupant(l.daemon.lanes[j]) == Occupant(l.daemon.lanes[k]) ==> j == k
  {
    forall o | o in l.daemon.activeIds
      ensures exists key :: key in l.daemon.lanes && Occupant(l.daemon.lanes[key]) == Some(o)
    {
      assert WorkOk(l.daemon, l.running[o], o);
      assert Occupant(l.daemon.lanes[l.running[o].Key()]) == Some(o);
    }
    forall key | key in l.daemon.lanes && Occupant(l.daemon.lanes[key]).Some?
      ensures var o := Occupant(l.daemon.lanes[key]).value; o in l.running && l.running[o].Key() == key
    {
      OccupantNamesLane(l.daemon, l.running, key);
    }
  }

  /** Each received request has been answered once, or is pending; on a live connection nothing is
      dropped, and when no request is pending every one has had its single answer. */
  lemma OneAnswerEach(l: Loop, ticket: nat)
    requires LoopOk(l) && ticket < l.book.issued
    ensures l.book.closed[ticket] + (if ticket in l.book.open.Values then 1 else 0) == 1
    ensures !Quiet(l) ==> l.dropped[ticket] == 0
    ensures l.book.open == map[] ==> l.book.closed[ticket] == 1
    ensures l.dropped[ticket] <= l.book.closed[ticket]
  {
    if l.book.open == map[] { assert l.book.open.Values == {}; }
  }

  // ---- Indeterminate working copies ----

  /** What a settled worker leaves, exactly: the lane is freed only after a clean settlement that was
      successful or cannot have mutated; a clean failed mutation of an attributed working copy awaits
      recovery; all else is blocked, and that is when the caller is told so. */
  lemma SettlementClassification(l: Loop, operation: string, st: Settlement)
    requires LoopOk(l) && operation in l.running && l.running[operation].Worker?
    ensures var key := l.running[operation].launch.laneKey;
            var lane := l.daemon.lanes[key];
            var d := SettleLaunch(l.daemon, key, operation, st);
            var clean := lane.effect == st.effect && st.CleanupSafe();
            var unknown := !st.ok && st.MayHaveMutated();
            && (key !in d.lanes <==> clean && !unknown)
            && (key in d.lanes && d.lanes[key] == Recovering(operation, None, {})
              <==> clean && unknown && lane.repository.Some?)
            && (key in d.lanes && d.lanes[key].Blocked? <==> !clean || (unknown && lane.repository.None?))
            && (SettleOverrides(l.daemon, key, operation, st) <==> key in d.lanes && d.lanes[key].Blocked?)
            && (key in d.lanes && d.lanes[key].Blocked? ==> d.lanes[key].origin == operation)
  {
    assert WorkOk(l.daemon, l.running[operation], operation);
    assert LaneOk(l.daemon, l.running, l.running[operation].launch.laneKey);
  }

  /** The lane still answers for the operation that left its working copy in an unknown state. */
  predicate Unresolved(d: Daemon, key: string, origin: string) {
    key in d.lanes && (d.lanes[key].Recovering? || d.lanes[key].Blocked?) && d.lanes[key].origin == origin
  }

  predicate Recovers(l: Loop, ev: Event, key: string, origin: string) {
    && ev.RecoveryDone? && ev.result.RecoveredRows? && ev.operation in l.running
      && l.running[ev.operation].RecoveryTask?
    && l.running[ev.operation].plan.laneKey == key && l.running[ev.operation].plan.origin == origin
  }

  /** The lane's incident goes on: same origin, a blocked lane untouched, the history extended. */
  predicate GoesOn(l: Loop, l': Loop, key: string, origin: string) {
    && Unresolved(l.daemon, key, origin) && Unresolved(l'.daemon, key, origin)
    && (l.daemon.lanes[key].Blocked? ==> l'.daemon.lanes[key] == l.daemon.lanes[key])
    && (key in l.attempts ==> key in l'.attempts && l.attempts[key] <= l'.attempts[key])
  }

  /** A dispatched request leaves an unresolved lane unresolved, and work on it is a recovery of its own. */
  predicate LeavesUnresolved(d: Daemon, result: (Daemon, Dispatched), key: string, origin: string)
    requires key in d.lanes
  {
    var (d', outcome) := result;
    && Unresolved(d', key, origin)
    && (d.lanes[key].Blocked? ==> d'.lanes[key] == d.lanes[key])
    && (outcome.Launched? ==> outcome.launch.laneKey != key)
    && (outcome.RecoveryLaunched? && outcome.plan.laneKey == key ==>
          outcome.plan.origin == origin && d.lanes[key].Recovering?)
  }

  lemma RecoverLeavesUnresolved(d: Daemon, r: Request, attribution: Option<string>, key: string, origin: string)
    requires Unresolved(d, key, origin) && r.Recover?
    ensures LeavesUnresolved(d, Dispatch(d, r, attribution), key, origin)
  {
  }

  lemma DispatchKeepsUnresolved(d: Daemon, r: Request, attribution: Option<string>, key: string, origin: string)
    requires Unresolved(d, key, origin)
    ensures LeavesUnresolved(d, Dispatch(d, r, attribution), key, origin)
  {
    if r.Recover? {
      RecoverLeavesUnresolved(d, r, attribution, key, origin);
    }
  }

  lemma SettleLaunchSpares(d: Daemon, other: string, operation: string, st: Settlement, key: string)
    requires key in d.lanes && (Holds(d, other, operation) ==> other != key)
    ensures key in SettleLaunch(d, other, operation, st).lanes
    ensures SettleLaunch(d, other, operation, st).lanes[key] == d.lanes[key]
  {
  }

  lemma FailedRecoveryStaysUnresolved(d: Daemon, plan: RecoveryPlan, reason: FailureClass, key: string, origin: string)
    requires Unresolved(d, key, origin)
    ensures var d' := SettleRecovery(d, plan, RecoveryFailed(reason));
            Unresolved(d', key, origin) && (d.lanes[key].Blocked? ==> d'.lanes[key] == d.lanes[key])
  {
  }

  lemma SettledKeepsUnresolved(l: Loop, d: Daemon, outcome: Dispatched, shutdown: bool, started: bool,
      failure: FailureClass, key: string, origin: string)
    requires Unresolved(l.daemon, key, origin) && Unresolved(d, key, origin)
    requires l.daemon.lanes[key].Blocked? ==> d.lanes[key] == l.daemon.lanes[key]
    requires outcome.Launched? ==> outcome.launch.laneKey != key
    ensures GoesOn(l, Settled(l, d, outcome, shutdown, started, failure), key, origin)
  {
    match outcome
    case Replied =>
    case Launched(launch) =>
      SettleLaunchSpares(d, launch.laneKey, launch.operation, PreLaunchFailure(launch.effect), key);
    case RecoveryLaunched(plan) =>
      FailedRecoveryStaysUnresolved(d, plan, if l.disconnected then OtherFailure else failure, key, origin);
  }

  lemma FinishedWorkerKeepsUnresolved(l: Loop, operation: string, st: Settlement, key: string, origin: string)
    requires operation in l.running && l.running[operation].Worker? && Unresolved(l.daemon, key, origin)
    requires Holds(l.daemon, l.running[operation].launch.laneKey, operation)
    ensures GoesOn(l, FinishedWorker(l, operation, st), key, origin)
  {
    SettleLaunchSpares(l.daemon, l.running[operation].launch.laneKey, operation, st, key);
  }

  lemma FinishedRecovery(l: Loop, operation: string, result: RecoveryResult, key: string, origin: string)
    requires operation in l.running && l.running[operation].RecoveryTask? && Unresolved(l.daemon, key, origin)
    requires RecoveryReplyOf(l.daemon, l.running[operation].plan, result) !in {SettlementInvalid, SessionLost}
    ensures var plan := l.running[operation].plan;
            var l' := Finish(l.(daemon := SettleRecovery(l.daemon, plan, result)), operation);
            if result.RecoveredRows? && plan.laneKey == key && plan.origin == origin
            then key !in l'.daemon.lanes && l.daemon.lanes[key].Recovering?
            else GoesOn(l, l', key, origin)
  {
    var plan := l.running[operation].plan;
    if result.RecoveryFailed? {
      FailedRecoveryStaysUnresolved(l.daemon, plan, result.reason, key, origin);
    }
  }

  lemma UnresolvedStep(l: Loop, ev: Event, key: string, origin: string)
    requires LoopOk(l) && Enabled(l, ev) && Unresolved(l.daemon, key, origin)
    ensures if Recovers(l, ev, key, origin) then key !in Next(l, ev).daemon.lanes && l.daemon.lanes[key].Recovering?
            else GoesOn(l, Next(l, ev), key, origin)
  {
    match ev
    case Disconnect =>
    case Stop =>
    case Receive(r, attribution, started, failure) =>
      DispatchKeepsUnresolved(l.daemon, r, attribution, key, origin);
      var (d, outcome) := Dispatch(l.daemon, r, attribution);
      SettledKeepsUnresolved(l, d, outcome, r.Shutdown?, started, failure, key, origin);
    case WorkerDone(operation, settlement) =>
      CompletionsFindTheirPlace(l, ev);
      FinishedWorkerKeepsUnresolved(l, operation, settlement, key, origin);
    case RecoveryDone(operation, result) =>
      CompletionsFindTheirPlace(l, ev);
      FinishedRecovery(l, operation, result, key, origin);
  }

  lemma UnresolvedStepOfRun(ls: seq<Loop>, evs: seq<Event>, i: nat, key: string, origin: string)
    requires Trace(ls, evs) && LoopOk(ls[0]) && i < |evs| && Unresolved(ls[i].daemon, key, origin)
    ensures
      if Recovers(ls[i], evs[i], key, origin) then
        key !in ls[i + 1].daemon.lanes && ls[i].daemon.lanes[key].Recovering?
      else GoesOn(ls[i], ls[i + 1], key, origin)
  {
    EveryRunIsOk(ls, evs, i);
    assert Steps(ls, evs, i);
    UnresolvedStep(ls[i], evs[i], key, origin);
  }

  /** Once unresolved, a lane is given back only by a successful recovery that names the same origin. */
  lemma {:induction false} OnlyRecoveryResolves(ls: seq<Loop>, evs: seq<Event>, i: nat, j: nat, key: string,
      origin: string)
    requires Trace(ls, evs) && LoopOk(ls[0]) && i <= j < |ls|
    requires Unresolved(ls[i].daemon, key, origin) && !Unresolved(ls[j].daemon, key, origin)
    ensures exists k :: i <= k < j && Recovers(ls[k], evs[k], key, origin)
    decreases j - i
  {
    UnresolvedStepOfRun(ls, evs, i, key, origin);
    if !Recovers(ls[i], evs[i], key, origin) {
      OnlyRecoveryResolves(ls, evs, i + 1, j, key, origin);
    }
  }

  /** A blocked lane stays as it is for the rest of the run. */
  lemma {:induction false} BlockedForever(ls: seq<Loop>, evs: seq<Event>, i: nat, j: nat, key: string)
    requires Trace(ls, evs) && LoopOk(ls[0]) && i <= j < |ls|
    requires key in ls[i].daemon.lanes && ls[i].daemon.lanes[key].Blocked?
    ensures key in ls[j].daemon.lanes && ls[j].daemon.lanes[key] == ls[i].daemon.lanes[key]
    decreases j - i
  {
    if i < j {
      UnresolvedStepOfRun(ls, evs, i, key, ls[i].daemon.lanes[key].origin);
      BlockedForever(ls, evs, i + 1, j, key);
    }
  }

  lemma {:induction false} ElementsCount(s: seq<string>)
    requires NoRepeats(s)
    ensures |Elements(s)| == |s|
  {
    if s != [] {
      var front := s[..|s| - 1];
      ElementsCount(front);
      assert s == front + [s[|s| - 1]];
      assert Elements(s) == Elements(front) + {s[|s| - 1]};
    }
  }

  /** At most 64 recoveries are launched in one incident, all with different ids, none the origin's. */
  lemma RecoveryAttemptsAreBounded(l: Loop, key: string)
    requires LoopOk(l) && key in l.daemon.lanes && l.daemon.lanes[key].Recovering?
    ensures key in l.attempts && NoRepeats(l.attempts[key]) && |l.attempts[key]| <= MAX_RECOVERY_IDS
    ensures l.daemon.lanes[key].origin !in l.attempts[key]
  {
    var lane := l.daemon.lanes[key];
    assert LaneOk(l.daemon, l.running, key);
    ElementsCount(l.attempts[key]);
    assert forall x :: x in l.attempts[key] ==> x in Elements(l.attempts[key]);
  }

  /** A recovery that fails without blocking uses up one of the 64 ids, so attempts come to an end. */
  lemma FailedRecoveryUsesAnId(l: Loop, operation: string, result: RecoveryResult)
    requires LoopOk(l) && operation in l.running && l.running[operation].RecoveryTask?
    requires RecoveryReplyOf(l.daemon, l.running[operation].plan, result) == StaysIndeterminate
    ensures var key := l.running[operation].plan.laneKey;
            var d := SettleRecovery(l.daemon, l.running[operation].plan, result);
            key in d.lanes && d.lanes[key].Recovering? && d.lanes[key].recovery.None?
            && |d.lanes[key].used| == |l.daemon.lanes[key].used| + 1 <= MAX_RECOVERY_IDS
  {
    assert WorkOk(l.daemon, l.running[operation], operation);
    assert LaneOk(l.daemon, l.running, l.running[operation].plan.laneKey);
  }

  // ---- Overlapping lanes ----

  predicate AllDisjoint(d: Daemon) {
    forall a, b :: a in d.lanes && b in d.lanes && a != b ==> !Overlap(a, b)
  }

  lemma NewLaneDisjointIff(d: Daemon, key: string, lane: Lane)
    requires AllDisjoint(d)
    ensures AllDisjoint(d.(lanes := d.lanes[key := lane])) <==> key in d.lanes || !Gated(d, {key})
  {
    var d' := d.(lanes := d.lanes[key := lane]);
    if key !in d.lanes && Gated(d, {key}) {
      var k, other :| k in {key} && other in d.lanes && Overlap(k, other);
      assert key in d'.lanes && other in d'.lanes && key != other;
    }
    if key in d.lanes || !Gated(d, {key}) {
      forall a, b | a in d'.lanes && b in d'.lanes && a != b ensures !Overlap(a, b) {
        if key !in d.lanes {
          assert key in {key};
          assert forall other :: other in d.lanes ==> !Overlap(key, other);
        }
      }
    }
  }

  /** The request recovers a free lane that overlaps a used one: what the gate, which recovery bypasses,
      would have refused. */
  ghost predicate ClaimsOverlappingLane(d: Daemon, r: Request) {
    && r.Recover? && r.origin != r.operation
    && IsOpen(d, r.repository, r.epoch)
    && r.operation !in d.activeIds
    && var key := AbsoluteKey(d.repositories[r.repository].root);
    && key !in d.lanes && Gated(d, {key})
  }

  /** Lanes of any kind stay disjoint through a request exactly if it makes no such claim. */
  lemma LanesStayDisjointIff(d: Daemon, r: Request, attribution: Option<string>)
    requires AllDisjoint(d)
    ensures AllDisjoint(Dispatch(d, r, attribution).0) <==> !ClaimsOverlappingLane(d, r)
  {
    var (d', outcome) := Dispatch(d, r, attribution);
    DispatchedLanes(d, r, attribution);
    match outcome
    case Replied =>
      if d'.lanes != d.lanes {
        var key := AbsoluteKey(d.repositories[r.repository].root);
        NewLaneDisjointIff(d, key, d'.lanes[key]);
      }
    case Launched(launch) =>
      NewLaneDisjointIff(d, launch.laneKey, d'.lanes[launch.laneKey]);
    case RecoveryLaunched(plan) =>
      NewLaneDisjointIff(d, plan.laneKey, d'.lanes[plan.laneKey]);
  }

  lemma FewerLanesDisjoint(d: Daemon, d': Daemon)
    requires AllDisjoint(d) && d'.lanes.Keys <= d.lanes.Keys
    ensures AllDisjoint(d')
  {
  }

  /** Settling, whatever the result, adds no lane. */
  lemma SettlingAddsNoLane(d: Daemon, key: string, operation: string, st: Settlement)
    ensures SettleLaunch(d, key, operation, st).lanes.Keys <= d.lanes.Keys
  {
  }

  lemma SettlingRecoveryAddsNoLane(d: Daemon, plan: RecoveryPlan, result: RecoveryResult)
    ensures SettleRecovery(d, plan, result).lanes.Keys <= d.lanes.Keys
  {
  }

  lemma RestOfIterationAddsNoLane(l: Loop, d: Daemon, outcome: Dispatched, shutdown: bool, started: bool,
      failure: FailureClass)
    ensures Settled(l, d, outcome, shutdown, started, failure).daemon.lanes.Keys <= d.lanes.Keys
  {
    match outcome
    case Replied =>
    case Launched(launch) =>
      SettlingAddsNoLane(d, launch.laneKey, launch.operation, PreLaunchFailure(launch.effect));
    case RecoveryLaunched(plan) =>
      SettlingRecoveryAddsNoLane(d, plan, RecoveryFailed(if l.disconnected then OtherFailure else failure));
  }

  /** One event of the loop keeps all lanes disjoint, unless it receives such a claim. */
  lemma EventKeepsLanesDisjoint(l: Loop, ev: Event)
    requires AllDisjoint(l.daemon) && Enabled(l, ev)
    requires ev.Receive? ==> !ClaimsOverlappingLane(l.daemon, ev.request)
    ensures AllDisjoint(Next(l, ev).daemon)
  {
    match ev
    case Disconnect =>
    case Stop =>
    case Receive(r, attribution, started, failure) =>
      var (d, outcome) := Dispatch(l.daemon, r, attribution);
      LanesStayDisjointIff(l.daemon, r, attribution);
      RestOfIterationAddsNoLane(l, d, outcome, r.Shutdown?, started, failure);
      FewerLanesDisjoint(d, Next(l, ev).daemon);
    case WorkerDone(operation, st) =>
      SettlingAddsNoLane(l.daemon, l.running[operation].launch.laneKey, operation, st);
      FewerLanesDisjoint(l.daemon, Next(l, ev).daemon);
    case RecoveryDone(operation, result) =>
      SettlingRecoveryAddsNoLane(l.daemon, l.running[operation].plan, result);
      FewerLanesDisjoint(l.daemon, Next(l, ev).daemon);
  }

  /** In a run from the start all lanes are disjoint as long as no recovery claimed an overlapping one. */
  lemma {:induction false} LanesDisjointInEveryRun(ls: seq<Loop>, evs: seq<Event>, k: nat)
    requires Trace(ls, evs) && ls[0] == START && k < |ls|
    requires forall i :: 0 <= i < k && evs[i].Receive? ==> !ClaimsOverlappingLane(ls[i].daemon, evs[i].request)
    ensures AllDisjoint(ls[k].daemon)
  {
    if k > 0 {
      LanesDisjointInEveryRun(ls, evs, k - 1);
      assert Steps(ls, evs, k - 1);
      EventKeepsLanesDisjoint(ls[k - 1], evs[k - 1]);
    }
  }

  /** A recovery that was launched leaves its lane used, whether or not its task could start. */
  lemma ClaimIsKept(l: Loop, d: Daemon, plan: RecoveryPlan, shutdown: bool, started: bool, failure: FailureClass)
    ensures d.lanes.Keys <= Settled(l, d, RecoveryLaunched(plan), shutdown, started, failure).daemon.lanes.Keys
  {
    var reason := if l.disconnected then OtherFailure else failure;
    assert d.lanes.Keys <= SettleRecovery(d, plan, RecoveryFailed(reason)).lanes.Keys;
  }

  /** The first such claim of a run is exactly where disjointness ends. */
  lemma DisjointnessEndsIff(ls: seq<Loop>, evs: seq<Event>, k: nat)
    requires Trace(ls, evs) && ls[0] == START && k < |evs|
    requires forall i :: 0 <= i < k && evs[i].Receive? ==> !ClaimsOverlappingLane(ls[i].daemon, evs[i].request)
    ensures !AllDisjoint(ls[k + 1].daemon) <==> evs[k].Receive? && ClaimsOverlappingLane(ls[k].daemon, evs[k].request)
  {
    LanesDisjointInEveryRun(ls, evs, k);
    assert Steps(ls, evs, k);
    var l, ev := ls[k], evs[k];
    if ev.Receive? && ClaimsOverlappingLane(l.daemon, ev.request) {
      var (d, outcome) := Dispatch(l.daemon, ev.request, ev.attribution);
      LanesStayDisjointIff(l.daemon, ev.request, ev.attribution);
      ClaimIsKept(l, d, outcome.plan, ev.request.Shutdown?, ev.started, ev.failure);
      if AllDisjoint(ls[k + 1].daemon) {
        FewerLanesDisjoint(ls[k + 1].daemon, d);
      }
    } else {
      EventKeepsLanesDisjoint(l, ev);
    }
  }

  /** Which lane a request can change. */
  lemma DispatchedLanes(d: Daemon, r: Request, attribution: Option<string>)
    ensures var (d', outcome) := Dispatch(d, r, attribution);
            match outcome
            case Replied =>
              d'.lanes == d.lanes ||
              (&& r.Recover? && r.repository in d.repositories
               && var key := AbsoluteKey(d.repositories[r.repository].root);
                  key in d.lanes && d'.lanes.Keys == d.lanes.Keys && d'.lanes == d.lanes[key := d'.lanes[key]])
            case Launched(launch) =>
              && launch.laneKey in d'.lanes && d'.lanes == d.lanes[launch.laneKey := d'.lanes[launch.laneKey]]
              && !Gated(d, {launch.laneKey})
            case RecoveryLaunched(plan) =>
              plan.laneKey in d'.lanes && d'.lanes == d.lanes[plan.laneKey := d'.lanes[plan.laneKey]]
  {
    var (d', outcome) := Dispatch(d, r, attribution);
    if outcome.Launched? {
      GateCovers(d, KeysOf(d, r), outcome.launch.laneKey);
    }
  }

  lemma SmallKeys()
    ensures AbsoluteKey("/w") == "/w" && AbsoluteKey("/w/n") == "/w/n" && Overlap("/w/n", "/w")
  {
    assert Slashes("/w") == "/w" && Slashes("/w/n") == "/w/n";
    assert TrimEnd("/w") == "/w" && TrimEnd("/w/n") == "/w/n";
    assert Fold("/w") == "/w" && Fold("/w/n") == "/w/n";
  }

  const NESTED_OPEN := Daemon(map["n" := Session("/w/n", 1, [], 1, map[], map[])], 2, map[], {})

  const OUTER_BUSY := NESTED_OPEN.(lanes := map["/w" := Active("a", Mutation, None, None)], activeIds := {"a"})

  const NESTED := OpenRepository({"/w/n"}, Some(Identity("n", "/w/n", [])))

  lemma NestedOpens()
    ensures Dispatch(START.daemon, NESTED, None) == (NESTED_OPEN, Replied)
  {
    assert !Gated(START.daemon, KeysOf(START.daemon, NESTED));
  }

  lemma OuterStarts()
    ensures Attributes(NESTED_OPEN, AbsoluteKey("/w"), None)
    ensures Dispatch(NESTED_OPEN, Checkout("/w", "a"), None) == (OUTER_BUSY, Launched(LaunchPlan("/w", "a", Mutation)))
  {
    SmallKeys();
    assert !Gated(NESTED_OPEN, KeysOf(NESTED_OPEN, Checkout("/w", "a")));
    assert map[]["/w" := Active("a", Mutation, None, None)] == OUTER_BUSY.lanes;
    assert Reserve(NESTED_OPEN, "/w", "a", Mutation, None, None) == OUTER_BUSY;
  }

  lemma NestedIsClaimed()
    ensures var (d, outcome) := Dispatch(OUTER_BUSY, Recover("n", 1, "x", "y"), None);
      outcome.RecoveryLaunched? && "/w" in d.lanes && "/w/n" in d.lanes
  {
    SmallKeys();
  }

  const AFTER_OPENING := Settled(START, NESTED_OPEN, Replied, false, true, OtherFailure)

  const AFTER_CHECKOUT :=
    Settled(AFTER_OPENING, OUTER_BUSY, Launched(LaunchPlan("/w", "a", Mutation)), false, true, OtherFailure)

  function Arrives(r: Request): Event { Receive(r, None, true, OtherFailure) }

  lemma OpeningStep()
    ensures Enabled(START, Arrives(NESTED)) && Next(START, Arrives(NESTED)) == AFTER_OPENING
  {
    NestedOpens();
  }

  lemma CheckoutStep()
    ensures Enabled(AFTER_OPENING, Arrives(Checkout("/w", "a")))
    ensures Next(AFTER_OPENING, Arrives(Checkout("/w", "a"))) == AFTER_CHECKOUT
  {
    OuterStarts();
  }

  lemma RecoveryStep()
    ensures var e := Arrives(Recover("n", 1, "x", "y"));
      Enabled(AFTER_CHECKOUT, e) && "/w" in Next(AFTER_CHECKOUT, e).daemon.lanes
        && "/w/n" in Next(AFTER_CHECKOUT, e).daemon.lanes
  {
    NestedIsClaimed();
  }

  lemma ThreeSteps(a: Loop, b: Loop, c: Loop, d: Loop, e0: Event, e1: Event, e2: Event)
    requires Enabled(a, e0) && Next(a, e0) == b && Enabled(b, e1) && Next(b, e1) == c
    requires Enabled(c, e2) && Next(c, e2) == d
    ensures Trace([a, b, c, d], [e0, e1, e2])
  {
    var ls, evs := [a, b, c, d], [e0, e1, e2];
    assert Steps(ls, evs, 0) && Steps(ls, evs, 1) && Steps(ls, evs, 2);
  }

  lemma OverlappingLanes(d: Daemon)
    requires "/w" in d.lanes && "/w/n" in d.lanes
    ensures !AllDisjoint(d)
  {
    SmallKeys();
    assert "/w/n" != "/w";
  }

  /** The exception happens: a repository is open at /w/n, a checkout into /w begins, and a recovery of
      the repository claims its free lane below the busy one. */
  lemma LanesCanOverlap() returns (last: Loop, evs: seq<Event>)
    ensures |evs| == 3 && Trace([START, AFTER_OPENING, AFTER_CHECKOUT, last], evs) && !AllDisjoint(last.daemon)
  {
    var e0, e1, e2 := Arrives(NESTED), Arrives(Checkout("/w", "a")), Arrives(Recover("n", 1, "x", "y"));
    OpeningStep();
    CheckoutStep();
    RecoveryStep();
    last, evs := Next(AFTER_CHECKOUT, e2), [e0, e1, e2];
    ThreeSteps(START, AFTER_OPENING, AFTER_CHECKOUT, last, e0, e1, e2);
    OverlappingLanes(last.daemon);
  }
}
