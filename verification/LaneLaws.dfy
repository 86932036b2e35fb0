/** What each request does to sessions and lanes, said without the functions that compute it: when work
    is launched and what it then holds, what a settlement leaves, and what opening and closing mean. */
module LaneLaws {
  import opened Options
  import opened Paths
  import opened Status
  import opened Lanes
  import opened Stdio
  import opened LaneTheorems
  import opened StdioTheorems
  import StatusLaws

  function RootKey(d: Daemon, repository: string): string
    requires repository in d.repositories
  {
    AbsoluteKey(d.repositories[repository].root)
  }

  // ---- Launching remote operations ----

  lemma OwnLaneGates(d: Daemon, key: string)
    requires !Gated(d, {key})
    ensures key !in d.lanes
  {
    if key in d.lanes {
      assert key in {key} && Overlap(key, key);
    }
  }

  /** The daemon with one more lane, occupied by a new worker; nothing else differs. */
  predicate Occupies(d: Daemon, d': Daemon, key: string, operation: string, effect: Effect,
      attribution: Option<string>)
  {
    && d'.repositories == d.repositories && d'.nextEpoch == d.nextEpoch
    && d'.activeIds == d.activeIds + {operation}
    && d'.lanes == d.lanes[key := Active(operation, effect, attribution, EpochOf(d, attribution))]
  }

  lemma PreflightLaw(d: Daemon, path: string, operation: string, effect: Effect, attribution: Option<string>)
    requires !Gated(d, {AbsoluteKey(path)})
    ensures var (d', out) := Preflight(d, path, operation, effect, attribution);
      if operation in d.activeIds then d' == d && out == Replied
      else
        && out == Launched(LaunchPlan(AbsoluteKey(path), operation, effect))
        && Occupies(d, d', AbsoluteKey(path), operation, effect, attribution)
  {
    OwnLaneGates(d, AbsoluteKey(path));
  }

  /** A checkout is launched exactly if no lane overlaps its target and its id is not in use. */
  lemma CheckoutLaunchedIff(d: Daemon, target: string, operation: string, attribution: Option<string>)
    ensures var key := AbsoluteKey(target);
      var (d', out) := Dispatch(d, Checkout(target, operation), attribution);
      if (exists l :: l in d.lanes && Overlap(key, l)) || operation in d.activeIds then d' == d && out == Replied
      else
        && out == Launched(LaunchPlan(key, operation, Mutation))
        && Occupies(d, d', key, operation, Mutation, attribution)
  {
    var key := AbsoluteKey(target);
    assert RequestKeys(d, None, {target}) == {key};
    GatedByOne(d, key);
    if !Gated(d, {key}) {
      PreflightLaw(d, target, operation, Mutation, attribution);
    }
  }

  lemma GatedByOne(d: Daemon, key: string)
    ensures Gated(d, {key}) <==> exists l :: l in d.lanes && Overlap(key, l)
  {
    if l :| l in d.lanes && Overlap(key, l) {
      assert key in {key};
    }
  }

  /** Any other remote operation is launched exactly if its session is open, no lane overlaps the
      session's root and its id is not in use. */
  lemma RemoteOperationLaunchedIff(d: Daemon, repository: string, epoch: nat, operation: string, effect: Effect,
      attribution: Option<string>)
    ensures var (d', out) := Dispatch(d, RemoteOperation(repository, epoch, operation, effect), attribution);
      if !IsOpen(d, repository, epoch) || operation in d.activeIds
         || exists l :: l in d.lanes && Overlap(RootKey(d, repository), l) then d' == d && out == Replied
      else
        && out == Launched(LaunchPlan(RootKey(d, repository), operation, effect))
        && Occupies(d, d', RootKey(d, repository), operation, effect, attribution)
  {
    if IsOpen(d, repository, epoch) {
      var key := RootKey(d, repository);
      assert RequestKeys(d, Some(repository), {}) == {key};
      GatedByOne(d, key);
      if !Gated(d, {key}) {
        PreflightLaw(d, d.repositories[repository].root, operation, effect, attribution);
      }
    }
  }

  /** The reason a launch is refused: its own id is in use, or else what its lane is doing. */
  lemma ReserveRefusals(d: Daemon, key: string, operation: string)
    ensures var refusal := ReserveRefusal(d, key, operation);
      && (refusal == Some(OperationInProgress) <==> operation in d.activeIds)
      && (refusal == None <==> operation !in d.activeIds && key !in d.lanes)
      && (operation !in d.activeIds && key in d.lanes ==>
            && (refusal == Some(LaneBusy) <==> d.lanes[key].Active?)
            && (refusal == Some(OperationIndeterminate) <==> d.lanes[key].Recovering?)
            && (refusal == Some(RecoveryBlocked) <==> d.lanes[key].Blocked?))
  {
  }

  // ---- Launching a recovery ----

  /** The lane waits for a recovery of this origin and has room for this id. */
  predicate Awaits(lane: Lane, origin: string, operation: string) {
    && lane.Recovering? && lane.origin == origin && lane.recovery == None
    && operation !in lane.used && |lane.used| < 64
  }

  predicate MayRecover(d: Daemon, repository: string, epoch: nat, origin: string, operation: string) {
    && origin != operation && operation !in d.activeIds && IsOpen(d, repository, epoch)
    && var key := RootKey(d, repository); key !in d.lanes || Awaits(d.lanes[key], origin, operation)
  }

  /** The ids tried before: those of the waiting lane, or none for a lane that was free. */
  function TriedBefore(d: Daemon, key: string): set<string> {
    if key in d.lanes && d.lanes[key].Recovering? then d.lanes[key].used else {}
  }

  /** A recovery claims the lane of the session's root, for a plan that carries the session's state. */
  predicate Claims(d: Daemon, d': Daemon, plan: RecoveryPlan, repository: string, origin: string, operation: string)
    requires repository in d.repositories
  {
    var s, key := d.repositories[repository], RootKey(d, repository);
    && plan.repository == repository && plan.epoch == s.epoch && plan.laneKey == key
    && plan.origin == origin && plan.operation == operation
    && plan.boundaryRoots == s.boundaryRoots && plan.generation == s.nextGeneration
    && d'.repositories == d.repositories && d'.nextEpoch == d.nextEpoch
    && d'.activeIds == d.activeIds + {operation}
    && d'.lanes == d.lanes[key := Recovering(origin, Some(operation), TriedBefore(d, key))]
  }

  /** The waiting lane has used up its 64 ids. */
  predicate UsedUp(d: Daemon, repository: string, epoch: nat, origin: string, operation: string) {
    && origin != operation && operation !in d.activeIds && IsOpen(d, repository, epoch)
    && var key := RootKey(d, repository);
       && key in d.lanes && d.lanes[key].Recovering? && d.lanes[key].origin == origin
       && d.lanes[key].recovery == None && operation !in d.lanes[key].used && |d.lanes[key].used| >= 64
  }

  /** A recovery is launched exactly if its ids differ, its own is new, its session is open, and the
      session's lane is free or waits for this very recovery with fewer than 64 ids used. A lane with all 64
      used is blocked; any other refusal changes nothing. */
  lemma RecoveryLaunchedIff(d: Daemon, repository: string, epoch: nat, origin: string, operation: string,
      attribution: Option<string>)
    ensures var (d', out) := Dispatch(d, Recover(repository, epoch, origin, operation), attribution);
      if MayRecover(d, repository, epoch, origin, operation) then
        out.RecoveryLaunched? && Claims(d, d', out.plan, repository, origin, operation)
      else if UsedUp(d, repository, epoch, origin, operation) then
        && out == Replied
        && d' == d.(lanes := d.lanes[RootKey(d, repository) := Blocked(origin, RemoteRecoveryBlocked, false)])
      else out == Replied && d' == d
  {
  }

  /** The id is known to the lane: as the origin of the incident, as the running recovery or as a used one. */
  predicate KnownToLane(lane: Lane, operation: string) {
    lane.Recovering? && (lane.origin == operation || lane.recovery == Some(operation) || operation in lane.used)
  }

  /** The request names two ids, one of them new, and an open session. */
  predicate WellNamed(d: Daemon, repository: string, epoch: nat, origin: string, operation: string) {
    && origin != operation && IsOpen(d, repository, epoch) && operation !in d.activeIds
    && var key := RootKey(d, repository); key in d.lanes ==> !KnownToLane(d.lanes[key], operation)
  }

  /** Each refusal of a recovery, by its own condition. */
  lemma RecoveryRefusals(d: Daemon, repository: string, epoch: nat, origin: string, operation: string)
    ensures var start := RecoveryStartOf(d, repository, epoch, origin, operation);
      && (start == InvalidIds <==> origin == operation)
      && (start == NotOpen <==> origin != operation && !IsOpen(d, repository, epoch))
      && (start == IdReused <==>
            origin != operation && IsOpen(d, repository, epoch) && !WellNamed(d, repository, epoch, origin, operation))
      && (start.Launch? <==> MayRecover(d, repository, epoch, origin, operation))
    ensures WellNamed(d, repository, epoch, origin, operation) && RootKey(d, repository) in d.lanes ==>
      var start, lane := RecoveryStartOf(d, repository, epoch, origin, operation), d.lanes[RootKey(d, repository)];
      && (start == Busy <==> Occupant(lane).Some?)
      && (start == AlreadyBlocked <==> lane.Blocked?)
      && (start == OriginMismatch <==> lane.Recovering? && lane.recovery == None && lane.origin != origin)
      && (start == Exhausted <==>
            lane.Recovering? && lane.recovery == None && lane.origin == origin && |lane.used| >= 64)
    ensures var start := RecoveryStartOf(d, repository, epoch, origin, operation);
      start in {Busy, AlreadyBlocked, OriginMismatch, Exhausted} ==>
      WellNamed(d, repository, epoch, origin, operation) && RootKey(d, repository) in d.lanes
  {
  }

  /** In a consistent loop a waiting lane offers 64 recoveries: one with a new id of the lane's own incident
      is launched exactly if fewer were launched before. */
  lemma RecoveryIsOffered(l: Loop, repository: string, epoch: nat, origin: string, operation: string,
      attribution: Option<string>)
    requires LoopOk(l) && IsOpen(l.daemon, repository, epoch) && RootKey(l.daemon, repository) in l.daemon.lanes
    requires var lane := l.daemon.lanes[RootKey(l.daemon, repository)];
      lane.Recovering? && lane.recovery.None? && lane.origin == origin
    requires operation != origin && operation !in l.running
    ensures var key := RootKey(l.daemon, repository);
      && key in l.attempts
      && (Dispatch(l.daemon, Recover(repository, epoch, origin, operation), attribution).1.RecoveryLaunched?
          <==> operation !in l.attempts[key] && |l.attempts[key]| < 64)
  {
    var d, key := l.daemon, RootKey(l.daemon, repository);
    assert AttemptOk(d.lanes[key], key, l.attempts);
    ElementsCount(l.attempts[key]);
    RecoveryLaunchedIff(d, repository, epoch, origin, operation, attribution);
    assert operation in l.attempts[key] <==> operation in Elements(l.attempts[key]);
  }

  // ---- Settling a recovery ----

  /** Nothing but this lane, the operation's id and possibly one session changes. */
  predicate LeavesRest(d: Daemon, d': Daemon, key: string, operation: string) {
    && d'.nextEpoch == d.nextEpoch && d'.activeIds == d.activeIds - {operation}
    && d'.lanes - {key} == d.lanes - {key}
  }

  /** A recovery that found rows frees its lane and rebuilds its session's local cache from exactly the
      rows that remain, stamped with the planned generation; no other session changes. */
  lemma RecoverySucceeds(d: Daemon, plan: RecoveryPlan, rows: seq<Entry>)
    requires RecoveryMatches(d, plan) && PlanOk(d, plan) && DistinctPaths(rows)
    ensures RecoveryReplyOf(d, plan, RecoveredRows(rows)) == Safe
    ensures var d' := SettleRecovery(d, plan, RecoveredRows(rows));
      && LeavesRest(d, d', plan.laneKey, plan.operation) && plan.laneKey !in d'.lanes
      && d'.repositories.Keys == d.repositories.Keys
      && (forall r :: r in d.repositories && r != plan.repository ==> d'.repositories[r] == d.repositories[r])
      && StatusLaws.RecoveryMeans(d.repositories[plan.repository], d'.repositories[plan.repository],
           plan.generation, rows)
  {
    StatusLaws.RecoveryLaw(d.repositories[plan.repository], plan.generation, rows);
  }

  /** What a failed recovery makes of a lane. */
  function FailedLane(origin: string, operation: string, tried: set<string>, reason: FailureClass): Lane {
    if reason == RemoteRecoveryBlocked then Blocked(origin, RemoteRecoveryBlocked, false)
    else Recovering(origin, None, tried + {operation})
  }

  /** A recovery that failed leaves the sessions alone and the lane blocked, if that is the reason, or else
      waiting with its id used up. */
  lemma RecoveryFails(d: Daemon, plan: RecoveryPlan, reason: FailureClass)
    requires RecoveryMatches(d, plan)
    ensures RecoveryReplyOf(d, plan, RecoveryFailed(reason))
         == if reason == RemoteRecoveryBlocked then BecomesBlocked else StaysIndeterminate
    ensures var d' := SettleRecovery(d, plan, RecoveryFailed(reason));
      && LeavesRest(d, d', plan.laneKey, plan.operation) && d'.repositories == d.repositories
      && plan.laneKey in d'.lanes
      && d'.lanes[plan.laneKey] ==
         FailedLane(plan.origin, plan.operation, d.lanes[plan.laneKey].used, reason)
  {
  }

  /** In every consistent loop a completed recovery settles in one of these two ways. */
  lemma CompletedRecoverySettles(l: Loop, operation: string, result: RecoveryResult)
    requires LoopOk(l) && Enabled(l, RecoveryDone(operation, result))
    requires result.RecoveredRows? ==> DistinctPaths(result.rows)
    ensures var plan, d' := l.running[operation].plan, Next(l, RecoveryDone(operation, result)).daemon;
      && LeavesRest(l.daemon, d', plan.laneKey, operation) && plan.repository in l.daemon.repositories
      && (plan.laneKey !in d'.lanes <==> result.RecoveredRows?)
      && (result.RecoveredRows? ==>
            plan.repository in d'.repositories &&
            var s := l.daemon.repositories[plan.repository];
            StatusLaws.RecoveryMeans(s, d'.repositories[plan.repository], s.nextGeneration, result.rows))
      && (result.RecoveryFailed? ==>
            d'.repositories == l.daemon.repositories &&
            (d'.lanes[plan.laneKey].Blocked? <==> result.reason == RemoteRecoveryBlocked))
  {
    var plan := l.running[operation].plan;
    assert WorkOk(l.daemon, l.running[operation], operation);
    if result.RecoveredRows? {
      RecoverySucceeds(l.daemon, plan, result.rows);
    } else {
      RecoveryFails(l.daemon, plan, result.reason);
    }
  }

  // ---- Launches whose thread does not start ----

  lemma UnlaunchedLeavesDaemon(d: Daemon, d': Daemon, launch: LaunchPlan, attribution: Option<string>)
    requires launch.laneKey !in d.lanes && launch.operation !in d.activeIds
    requires attribution.Some? ==> attribution.value in d.repositories
    requires Occupies(d, d', launch.laneKey, launch.operation, launch.effect, attribution)
    ensures SettleLaunch(d', launch.laneKey, launch.operation, PreLaunchFailure(launch.effect)) == d
  {
    assert d.activeIds + {launch.operation} - {launch.operation} == d.activeIds;
    assert d'.lanes - {launch.laneKey} == d.lanes;
  }

  predicate NeedsWorker(r: Request) { r.Checkout? || r.RemoteOperation? }

  /** Such a request is answered with nothing changed, or launches a worker on a lane that was free. */
  predicate LaunchesOrNot(d: Daemon, result: (Daemon, Dispatched), attribution: Option<string>) {
    match result.1
    case Replied => result.0 == d
    case Launched(launch) =>
      && launch.laneKey !in d.lanes && launch.operation !in d.activeIds
      && (attribution.Some? ==> attribution.value in d.repositories)
      && Occupies(d, result.0, launch.laneKey, launch.operation, launch.effect, attribution)
    case RecoveryLaunched(_) => false
  }

  lemma WorkerRequestLaunchesOrNot(d: Daemon, r: Request, attribution: Option<string>)
    requires NeedsWorker(r) && GoodAttribution(d, r, attribution)
    ensures LaunchesOrNot(d, Dispatch(d, r, attribution), attribution)
  {
    if r.Checkout? {
      CheckoutLaunchedIff(d, r.target, r.operation, attribution);
      GatedByOne(d, AbsoluteKey(r.target));
      if !Gated(d, {AbsoluteKey(r.target)}) { OwnLaneGates(d, AbsoluteKey(r.target)); }
    } else {
      RemoteOperationLaunchedIff(d, r.repository, r.epoch, r.operation, r.effect, attribution);
      if IsOpen(d, r.repository, r.epoch) {
        GatedByOne(d, RootKey(d, r.repository));
        if !Gated(d, {RootKey(d, r.repository)}) { OwnLaneGates(d, RootKey(d, r.repository)); }
      }
    }
  }

  lemma UnstartedLeaves(l: Loop, result: (Daemon, Dispatched), attribution: Option<string>, started: bool,
      failure: FailureClass)
    requires LaunchesOrNot(l.daemon, result, attribution) && (l.disconnected || !started)
    ensures var l' := Settled(l, result.0, result.1, false, started, failure);
      l'.daemon == l.daemon && l'.running == l.running
  {
    if result.1.Launched? {
      UnlaunchedLeavesDaemon(l.daemon, result.0, result.1.launch, attribution);
    }
  }

  /** A remote operation whose worker cannot be started, or that arrives on a lost connection, leaves the
      daemon and the running work as they were, its lane free. */
  lemma UnstartedOperationLeavesNoTrace(l: Loop, r: Request, attribution: Option<string>, started: bool,
      failure: FailureClass)
    requires Enabled(l, Receive(r, attribution, started, failure)) && NeedsWorker(r) && (l.disconnected || !started)
    ensures var l' := Next(l, Receive(r, attribution, started, failure));
      l'.daemon == l.daemon && l'.running == l.running
  {
    WorkerRequestLaunchesOrNot(l.daemon, r, attribution);
    UnstartedLeaves(l, Dispatch(l.daemon, r, attribution), attribution, started, failure);
  }

  lemma UnlaunchedRecovery(d: Daemon, d': Daemon, plan: RecoveryPlan, repository: string, origin: string,
      operation: string, reason: FailureClass)
    requires repository in d.repositories && operation !in d.activeIds
    requires Claims(d, d', plan, repository, origin, operation)
    ensures SettleRecovery(d', plan, RecoveryFailed(reason)) ==
      d.(lanes := d.lanes[plan.laneKey := FailedLane(origin, operation, TriedBefore(d, plan.laneKey), reason)])
  {
    RecoveryFails(d', plan, reason);
    assert d.activeIds + {operation} - {operation} == d.activeIds;
  }

  lemma UnstartedRecoverySettles(l: Loop, d: Daemon, plan: RecoveryPlan, started: bool, failure: FailureClass)
    requires l.disconnected || !started
    ensures var l' := Settled(l, d, RecoveryLaunched(plan), false, started, failure);
      && l'.running == l.running
      && l'.daemon == SettleRecovery(d, plan, RecoveryFailed(if l.disconnected then OtherFailure else failure))
  {
  }

  /** A recovery whose thread cannot be started counts as one that failed. */
  lemma UnstartedRecoveryUsesItsId(l: Loop, r: Request, attribution: Option<string>, started: bool,
      failure: FailureClass)
    requires Enabled(l, Receive(r, attribution, started, failure)) && r.Recover?
    requires MayRecover(l.daemon, r.repository, r.epoch, r.origin, r.operation) && (l.disconnected || !started)
    ensures var l', key := Next(l, Receive(r, attribution, started, failure)), RootKey(l.daemon, r.repository);
      var reason := if l.disconnected then OtherFailure else failure;
      && l'.running == l.running
      && l'.daemon == l.daemon.(lanes := l.daemon.lanes[key :=
           FailedLane(r.origin, r.operation, TriedBefore(l.daemon, key), reason)])
  {
    var d := l.daemon;
    RecoveryLaunchedIff(d, r.repository, r.epoch, r.origin, r.operation, attribution);
    var (d', out) := Dispatch(d, r, attribution);
    UnlaunchedRecovery(d, d', out.plan, r.repository, r.origin, r.operation,
                       if l.disconnected then OtherFailure else failure);
    UnstartedRecoverySettles(l, d', out.plan, started, failure);
  }
}
