/** The invariant that ties lanes, in-flight work and sessions together, kept by every lane step. */
module LaneTheorems {
  import opened Options
  import opened Paths
  import opened Status
  import opened StatusTheorems
  import opened Lanes
  import opened Stdio

  type Running = map<string, Work>

  predicate AttributionOk(d: Daemon, key: string, repository: Option<string>, epoch: Option<nat>) {
    && (repository.None? <==> epoch.None?)
    && (repository.Some? ==>
          IsOpen(d, repository.value, epoch.value) && AbsoluteKey(d.repositories[repository.value].root) == key)
  }

  /** A used lane belongs to exactly the work that occupies it. */
  predicate LaneOk(d: Daemon, running: Running, key: string)
    requires key in d.lanes
  {
    match d.lanes[key]
    case Active(operation, effect, repository, epoch) =>
      && operation in running && running[operation] == Worker(LaunchPlan(key, operation, effect))
      && AttributionOk(d, key, repository, epoch)
    case Recovering(origin, recovery, used) =>
      && origin !in used && |used| <= MAX_RECOVERY_IDS
      && (recovery.Some? ==>
            && recovery.value != origin && recovery.value !in used && |used| < MAX_RECOVERY_IDS
            && recovery.value in running && running[recovery.value].RecoveryTask?
            && running[recovery.value].plan.laneKey == key)
    case Blocked(_, _, _) => true
  }

  /** Work in flight still finds its lane, and a recovery the session it was planned for. */
  predicate WorkOk(d: Daemon, work: Work, operation: string) {
    && work.Operation() == operation
    && match work
       case Worker(launch) => Holds(d, launch.laneKey, operation)
       case RecoveryTask(plan) =>
         && RecoveryMatches(d, plan)
         && PlanOk(d, plan)
  }

  predicate PlanOk(d: Daemon, plan: RecoveryPlan) {
    && IsOpen(d, plan.repository, plan.epoch)
    && var s := d.repositories[plan.repository];
       && s.nextGeneration == plan.generation && s.boundaryRoots == plan.boundaryRoots
       && AbsoluteKey(s.root) == plan.laneKey
  }

  predicate SessionsOk(d: Daemon) {
    forall r :: r in d.repositories ==> SessionOk(d.repositories[r]) && d.repositories[r].epoch < d.nextEpoch
  }

  /** No two Active lanes overlap. */
  predicate ActiveDisjoint(d: Daemon) {
    forall a, b :: a in d.lanes && b in d.lanes && a != b && d.lanes[a].Active? && d.lanes[b].Active? ==> !Overlap(a, b)
  }

  predicate DaemonOk(d: Daemon, running: Running) {
    && running.Keys == d.activeIds
    && (forall key :: key in d.lanes ==> LaneOk(d, running, key))
    && (forall operation :: operation in running ==> WorkOk(d, running[operation], operation))
    && SessionsOk(d)
    && ActiveDisjoint(d)
  }

  // ---- Sessions change only behind the gate ----

  predicate Unused(d: Daemon, running: Running, r: string) {
    && (forall key :: key in d.lanes && d.lanes[key].Active? ==> d.lanes[key].repository != Some(r))
    && (forall operation :: operation in running && running[operation].RecoveryTask? ==>
      running[operation].plan.repository != r)
  }

  lemma PassingTheGateMeansUnused(d: Daemon, running: Running, r: string)
    requires DaemonOk(d, running) && r in d.repositories
    requires !Gated(d, RequestKeys(d, Some(r), {}))
    ensures Unused(d, running, r)
  {
    var key := AbsoluteKey(d.repositories[r].root);
    assert key in RequestKeys(d, Some(r), {});
    assert key !in d.lanes by {
      if key in d.lanes { assert Overlap(key, key); }
    }
  }

  /** Lanes and work are fine as long as the sessions they use are still there as they were. */
  lemma LaneMindsItsSession(d: Daemon, d': Daemon, running: Running, key: string)
    requires key in d.lanes && LaneOk(d, running, key) && d'.lanes == d.lanes
    requires var lane := d.lanes[key];
      lane.Active? && lane.repository.Some? ==> SameSession(d, d', lane.repository.value)
    ensures LaneOk(d', running, key)
  {
  }

  lemma WorkMindsItsSession(d: Daemon, d': Daemon, work: Work, o: string)
    requires WorkOk(d, work, o) && d'.lanes == d.lanes
    requires work.RecoveryTask? ==> SameSession(d, d', work.plan.repository)
    ensures WorkOk(d', work, o)
  {
  }

  predicate SameSession(d: Daemon, d': Daemon, r: string) {
    r in d.repositories ==> r in d'.repositories && d'.repositories[r] == d.repositories[r]
  }

  lemma OthersKeepTheirSessions(d: Daemon, d': Daemon, running: Running)
    requires DaemonOk(d, running) && d'.lanes == d.lanes && d'.activeIds == d.activeIds && SessionsOk(d')
    requires forall r :: r in d.repositories && !Unused(d, running, r) ==> SameSession(d, d', r)
    ensures DaemonOk(d', running)
  {
    forall key | key in d'.lanes ensures LaneOk(d', running, key) {
      LaneMindsItsSession(d, d', running, key);
    }
    forall o | o in running ensures WorkOk(d', running[o], o) {
      WorkMindsItsSession(d, d', running[o], o);
    }
  }

  lemma ChangeSession(d: Daemon, running: Running, r: string, s: Session)
    requires DaemonOk(d, running) && r in d.repositories && Unused(d, running, r)
    requires SessionOk(s) && s.epoch == d.repositories[r].epoch
    ensures DaemonOk(WithSession(d, r, s), running)
  {
    OthersKeepTheirSessions(d, WithSession(d, r, s), running);
  }

  lemma CloseKeeps(d: Daemon, running: Running, r: string, epoch: nat)
    requires DaemonOk(d, running) && (r in d.repositories ==> Unused(d, running, r))
    ensures DaemonOk(Close(d, r, epoch), running)
  {
    OthersKeepTheirSessions(d, Close(d, r, epoch), running);
  }

  lemma RootIsOutsideValidBoundaries(roots: seq<string>)
    requires ValidBoundaries(roots)
    ensures !InsideBoundary(".", roots)
  {
    assert Slashes(".") == "." && TrimStart(".") == "." && TrimEnd(".") == ".";
    assert StatusKey(".") == "." by { FoldDot(); }
    forall i | 0 <= i < |roots|
      ensures StatusKey(roots[i]) != "." && !IsDescendant(".", StatusKey(roots[i]))
    {
      ValidPathKey(roots[i]);
    }
  }

  lemma FoldDot()
    ensures Fold(".") == "."
  {
    assert LowerChar('.') == '.';
  }

  /** A valid path loses no component to trimming, so its key is not the dot of the root. */
  lemma ValidPathKey(path: string)
    requires ValidRelativePath(path) && path != "."
    ensures StatusKey(path) != "."
  {
    var text := Slashes(path);
    assert TrimStart(text) == text;
    assert TrimEnd(text) == text by {
      if text[|text| - 1] == '/' { TrailingSlashSplits(text); }
    }
  }

  lemma TrailingSlashSplits(s: string)
    requires s != "" && s[|s| - 1] == '/'
    ensures "" in Split(s)
  {
    var front := s[..|s| - 1];
    assert s == front + "/" + "";
    SplitConcat(front, "");
    assert Split(s) == Split(front) + [""];
  }

  predicate KeysDiffer(bs: seq<Boundary>) {
    && (forall i :: 0 <= i < |bs| ==> bs[i].Boundary?)
    && (forall i, j :: 0 <= i < j < |bs| ==> bs[i].key != bs[j].key)
  }

  /** What is kept of the first `n` boundaries: some of them, with all their keys, each once. */
  ghost predicate Keeps(kept: seq<Boundary>, bs: seq<Boundary>, n: nat)
    requires n <= |bs|
  {
    && KeysDiffer(kept)
    && (forall i :: 0 <= i < |kept| ==> kept[i] in bs[..n])
    && (forall i :: 0 <= i < n && bs[i].Boundary? ==> HasKey(kept, bs[i].key))
  }

  lemma HasKeyMore(bs: seq<Boundary>, b: Boundary, key: string)
    requires b.Boundary?
    ensures HasKey(bs + [b], key) <==> HasKey(bs, key) || b.key == key
  {
    assert (bs + [b])[|bs|] == b;
    if HasKey(bs, key) {
      var i :| 0 <= i < |bs| && bs[i].Boundary? && bs[i].key == key;
      assert (bs + [b])[i] == bs[i];
    }
  }

  lemma KeepsOneMore(kept: seq<Boundary>, bs: seq<Boundary>, n: nat)
    requires n < |bs| && Keeps(kept, bs, n) && bs[n].Boundary?
    ensures Keeps(AddBoundary(Some(kept), bs[n]).value, bs, n + 1)
  {
    var b, kept' := bs[n], AddBoundary(Some(kept), bs[n]).value;
    assert bs[..n + 1] == bs[..n] + [b];
    if !HasKey(kept, b.key) {
      assert KeysDiffer(kept + [b]) by {
        forall i | 0 <= i < |kept| ensures kept[i].key != b.key {
        }
      }
      forall i | 0 <= i <= n && bs[i].Boundary? ensures HasKey(kept + [b], bs[i].key) {
        HasKeyMore(kept, b, bs[i].key);
      }
    }
  }

  /** Leaving out boundaries with a key already seen loses none. */
  lemma {:induction false} BoundariesAreKept(bs: seq<Boundary>, n: nat)
    requires n <= |bs| && Collected(bs, n).Some?
    ensures Keeps(Collected(bs, n).value, bs, n)
  {
    if n > 0 {
      BoundariesAreKept(bs, n - 1);
      KeepsOneMore(Collected(bs, n - 1).value, bs, n - 1);
    }
  }

  /** A boundary that is not bad is a valid path other than the root, under its own key. */
  predicate IsProper(b: Boundary) {
    b.Boundary? ==> ValidRelativePath(b.path) && b.path != "." && b.key == StatusKey(b.path)
  }

  lemma BoundariesAreProper(root: string, texts: seq<string>)
    ensures forall i :: 0 <= i < |texts| ==> IsProper(BoundariesFor(root, texts)[i])
  {
  }

  lemma KeptAreValid(kept: seq<Boundary>, bs: seq<Boundary>)
    requires Keeps(kept, bs, |bs|) && forall i :: 0 <= i < |bs| ==> IsProper(bs[i])
    ensures ValidBoundaries(BoundaryPaths(kept))
  {
    forall i | 0 <= i < |kept| ensures IsProper(kept[i]) {
      assert kept[i] in bs[..|bs|];
    }
  }

  lemma RelativeBoundariesAreValid(root: string, texts: seq<string>)
    requires RelativeBoundaries(root, texts).Some?
    ensures ValidBoundaries(RelativeBoundaries(root, texts).value)
  {
    var bs := BoundariesFor(root, texts);
    BoundariesAreProper(root, texts);
    BoundariesAreKept(bs, |texts|);
    KeptAreValid(Collected(bs, |texts|).value, bs);
  }

  predicate AtOrBelow(key: string, above: string) { key == above || IsDescendant(key, above) }

  /** The key is that of one of the boundaries, or below one. */
  predicate InsideOneOf(key: string, bs: seq<Boundary>) {
    exists i :: 0 <= i < |bs| && bs[i].Boundary? && AtOrBelow(key, bs[i].key)
  }

  lemma KeptMeansTheSame(kept: seq<Boundary>, bs: seq<Boundary>, key: string)
    requires Keeps(kept, bs, |bs|)
    ensures InsideOneOf(key, kept) <==> InsideOneOf(key, bs)
  {
    if InsideOneOf(key, kept) {
      var i :| 0 <= i < |kept| && kept[i].Boundary? && AtOrBelow(key, kept[i].key);
      var j :| 0 <= j < |bs| && bs[j] == kept[i];
    }
    if InsideOneOf(key, bs) {
      var j :| 0 <= j < |bs| && bs[j].Boundary? && AtOrBelow(key, bs[j].key);
      assert HasKey(kept, bs[j].key);
      var i :| 0 <= i < |kept| && kept[i].Boundary? && kept[i].key == bs[j].key;
    }
  }

  lemma InsideByKeys(kept: seq<Boundary>, path: string)
    requires forall i :: 0 <= i < |kept| ==> kept[i].Boundary? && kept[i].key == StatusKey(kept[i].path)
    ensures InsideBoundary(path, BoundaryPaths(kept)) <==> InsideOneOf(StatusKey(path), kept)
  {
    var paths := BoundaryPaths(kept);
    assert forall i :: 0 <= i < |kept| ==> StatusKey(paths[i]) == kept[i].key;
  }

  /** A row is inside the session's boundaries exactly if it is inside one of those asked for. */
  lemma InsideIff(root: string, texts: seq<string>, path: string)
    requires RelativeBoundaries(root, texts).Some?
    ensures InsideBoundary(path, RelativeBoundaries(root, texts).value)
       <==> InsideOneOf(StatusKey(path), BoundariesFor(root, texts))
  {
    var bs := BoundariesFor(root, texts);
    var kept := Collected(bs, |texts|).value;
    BoundariesAreProper(root, texts);
    BoundariesAreKept(bs, |texts|);
    forall i | 0 <= i < |kept| ensures kept[i].Boundary? && kept[i].key == StatusKey(kept[i].path) {
      assert kept[i] in bs[..|bs|] && IsProper(kept[i]);
    }
    KeptMeansTheSame(kept, bs, StatusKey(path));
    InsideByKeys(kept, path);
  }

  lemma OpenSessionKeeps(d: Daemon, running: Running, repository: string, root: string, boundaries: Option<seq<string>>)
    requires DaemonOk(d, running) && (boundaries.Some? ==> ValidBoundaries(boundaries.value))
    ensures DaemonOk(OpenSession(d, repository, root, boundaries), running)
  {
    var d' := OpenSession(d, repository, root, boundaries);
    if boundaries.Some? && repository !in d.repositories {
      RootIsOutsideValidBoundaries(boundaries.value);
      OthersKeepTheirSessions(d, d', running);
    }
  }

  lemma OpenKeeps(d: Daemon, running: Running, found: Option<Identity>)
    requires DaemonOk(d, running)
    ensures DaemonOk(Open(d, found), running)
  {
    if found.Some? {
      var id := found.value;
      if RelativeBoundaries(id.root, id.boundaryRoots).Some? {
        RelativeBoundariesAreValid(id.root, id.boundaryRoots);
      }
      OpenSessionKeeps(d, running, id.repository, id.root, RelativeBoundaries(id.root, id.boundaryRoots));
    }
  }

  lemma OccupyKeeps(d: Daemon, running: Running, key: string, lane: Lane, work: Work)
    requires DaemonOk(d, running)
    requires work.Operation() !in d.activeIds
    requires key in d.lanes ==> d.lanes[key].Recovering? && d.lanes[key].recovery.None?
    requires var d' := d.(activeIds := d.activeIds + {work.Operation()}, lanes := d.lanes[key := lane]);
             var running' := running[work.Operation() := work];
             LaneOk(d', running', key) && WorkOk(d', work, work.Operation())
    requires lane.Active? ==> forall k :: k in d.lanes ==> !Overlap(key, k)
    ensures DaemonOk(d.(activeIds := d.activeIds + {work.Operation()}, lanes := d.lanes[key := lane]),
                     running[work.Operation() := work])
  {
    var operation := work.Operation();
    var d' := d.(activeIds := d.activeIds + {operation}, lanes := d.lanes[key := lane]);
    var running' := running[operation := work];
    forall k | k in d'.lanes && k != key ensures LaneOk(d', running', k) {
      OtherLaneOk(d, d', running, running', operation, k);
    }
    forall o | o in running' && o != operation ensures WorkOk(d', running'[o], o) {
      OtherWorkOk(d, d', running, key, o);
    }
    OneMoreActive(d, key, lane, d');
  }

  lemma OtherLaneOk(d: Daemon, d': Daemon, running: Running, running': Running, operation: string, k: string)
    requires k in d.lanes && LaneOk(d, running, k) && d'.repositories == d.repositories
    requires k in d'.lanes && d'.lanes[k] == d.lanes[k]
    requires operation !in running && operation in running' && running' == running[operation := running'[operation]]
    ensures LaneOk(d', running', k)
  {
  }

  lemma OtherWorkOk(d: Daemon, d': Daemon, running: Running, key: string, o: string)
    requires o in running && WorkOk(d, running[o], o) && d'.repositories == d.repositories
    requires key in d'.lanes && d'.lanes == d.lanes[key := d'.lanes[key]]
    requires key in d.lanes ==> d.lanes[key].Recovering? && d.lanes[key].recovery.None?
    ensures WorkOk(d', running[o], o)
  {
  }

  lemma OneMoreActive(d: Daemon, key: string, lane: Lane, d': Daemon)
    requires ActiveDisjoint(d) && d'.lanes == d.lanes[key := lane]
    requires lane.Active? ==> forall k :: k in d.lanes ==> !Overlap(key, k)
    ensures ActiveDisjoint(d')
  {
  }

  lemma ReserveKeeps(d: Daemon, running: Running, key: string, operation: string, effect: Effect,
      repository: Option<string>)
    requires DaemonOk(d, running) && Attributes(d, key, repository)
    requires ReserveRefusal(d, key, operation).None? && !Gated(d, {key})
    ensures DaemonOk(Reserve(d, key, operation, effect, repository, EpochOf(d, repository)),
                     running[operation := Worker(LaunchPlan(key, operation, effect))])
  {
    forall k | k in d.lanes ensures !Overlap(key, k) {
      assert key in {key};
    }
    OccupyKeeps(d, running, key, Active(operation, effect, repository, EpochOf(d, repository)),
                Worker(LaunchPlan(key, operation, effect)));
  }

  lemma StartRecoveryKeeps(d: Daemon, running: Running, repository: string, epoch: nat, origin: string,
      operation: string)
    requires DaemonOk(d, running)
    ensures var start := RecoveryStartOf(d, repository, epoch, origin, operation);
            var d' := StartRecovery(d, repository, epoch, origin, operation);
            if start.Launch? then DaemonOk(d', running[operation := RecoveryTask(start.plan)])
              else DaemonOk(d', running)
  {
    match RecoveryStartOf(d, repository, epoch, origin, operation)
    case Launch(plan) =>
      if plan.laneKey in d.lanes { assert LaneOk(d, running, plan.laneKey); }
      OccupyKeeps(d, running, plan.laneKey, Recovering(origin, Some(operation), UsedIds(d, plan.laneKey)),
        RecoveryTask(plan));
    case Exhausted =>
      ReleaseKeeps(d, running, AbsoluteKey(d.repositories[repository].root),
        Some(Blocked(origin, RemoteRecoveryBlocked, false)), None);
    case _ =>
  }

  // ---- Leaving a lane ----

  function Minus(running: Running, operation: Option<string>): Running {
    if operation.Some? then running - {operation.value} else running
  }

  /** Who occupies a lane: its operation, or its running recovery. */
  function Occupant(lane: Lane): Option<string> {
    match lane
    case Active(operation, _, _, _) => Some(operation)
    case Recovering(_, recovery, _) => recovery
    case Blocked(_, _, _) => None
  }

  /** Taking the work, if any, off a lane and leaving the lane free, waiting or blocked. */
  lemma ReleaseKeeps(d: Daemon, running: Running, key: string, left: Option<Lane>, operation: Option<string>)
    requires DaemonOk(d, running) && key in d.lanes && Occupant(d.lanes[key]) == operation
    requires left.Some? ==>
               left.value.Blocked?
               || (left.value.Recovering? && left.value.recovery.None?
                   && left.value.origin !in left.value.used && |left.value.used| <= MAX_RECOVERY_IDS)
    ensures DaemonOk(d.(activeIds := Minus(running, operation).Keys, lanes := Put(d.lanes, key, left)),
                     Minus(running, operation))
  {
    var running' := Minus(running, operation);
    var d' := d.(activeIds := running'.Keys, lanes := Put(d.lanes, key, left));
    forall k | k in d'.lanes ensures LaneOk(d', running', k) {
      if k != key { OtherLaneKeeps(d, running, key, left, operation, k); }
    }
    forall o | o in running' ensures WorkOk(d', running'[o], o) {
      OtherWorkKeeps(d, running, key, left, operation, o);
    }
  }

  /** A lane's work names that lane, so no operation occupies two. */
  lemma OccupantNamesLane(d: Daemon, running: Running, key: string)
    requires DaemonOk(d, running) && key in d.lanes && Occupant(d.lanes[key]).Some?
    ensures var o := Occupant(d.lanes[key]).value; o in running && running[o].Key() == key
  {
    assert LaneOk(d, running, key);
  }

  lemma OtherLaneKeeps(d: Daemon, running: Running, key: string, left: Option<Lane>, operation: Option<string>,
      k: string)
    requires DaemonOk(d, running) && key in d.lanes && Occupant(d.lanes[key]) == operation
    requires k in d.lanes && k != key
    ensures LaneOk(d.(activeIds := Minus(running, operation).Keys, lanes := Put(d.lanes, key, left)),
      Minus(running, operation), k)
  {
    assert LaneOk(d, running, k);
    if operation.Some? { OccupantNamesLane(d, running, key); }
    if Occupant(d.lanes[k]).Some? { OccupantNamesLane(d, running, k); }
  }

  lemma OtherWorkKeeps(d: Daemon, running: Running, key: string, left: Option<Lane>, operation: Option<string>,
      o: string)
    requires DaemonOk(d, running) && key in d.lanes && Occupant(d.lanes[key]) == operation
    requires o in Minus(running, operation)
    ensures WorkOk(d.(activeIds := Minus(running, operation).Keys, lanes := Put(d.lanes, key, left)), running[o], o)
  {
    assert WorkOk(d, running[o], o);
    WorkIsItsLanesOccupant(d, running[o], o);
    WorkElsewhere(d, d.(activeIds := Minus(running, operation).Keys, lanes := Put(d.lanes, key, left)), running[o], o,
      key);
  }

  lemma WorkIsItsLanesOccupant(d: Daemon, work: Work, o: string)
    requires WorkOk(d, work, o)
    ensures work.Key() in d.lanes && Occupant(d.lanes[work.Key()]) == Some(o)
  {
  }

  /** Work on one lane does not mind what becomes of another. */
  lemma WorkElsewhere(d: Daemon, d': Daemon, work: Work, o: string, key: string)
    requires WorkOk(d, work, o) && work.Key() != key && d'.repositories == d.repositories
    requires work.Key() in d'.lanes && work.Key() in d.lanes && d'.lanes[work.Key()] == d.lanes[work.Key()]
    ensures WorkOk(d', work, o)
  {
  }

  lemma SettleLaunchKeeps(d: Daemon, running: Running, operation: string, st: Settlement)
    requires DaemonOk(d, running) && operation in running && running[operation].Worker?
    ensures DaemonOk(SettleLaunch(d, running[operation].launch.laneKey, operation, st), running - {operation})
  {
    var key := running[operation].launch.laneKey;
    assert WorkOk(d, running[operation], operation);
    assert LaneOk(d, running, key);
    ReleaseKeeps(d, running, key, SettledLane(d.lanes[key], st), Some(operation));
  }

  lemma SettleRecoveryKeeps(d: Daemon, running: Running, operation: string, result: RecoveryResult)
    requires DaemonOk(d, running) && operation in running && running[operation].RecoveryTask?
    ensures DaemonOk(SettleRecovery(d, running[operation].plan, result), running - {operation})
  {
    var plan := running[operation].plan;
    assert WorkOk(d, running[operation], operation);
    assert LaneOk(d, running, plan.laneKey);
    var running' := running - {operation};
    match RecoveryReplyOf(d, plan, result)
    case Safe =>
      ReleaseKeeps(d, running, plan.laneKey, None, Some(operation));
      var freed := d.(activeIds := running'.Keys, lanes := d.lanes - {plan.laneKey});
      var s := d.repositories[plan.repository];
      RecoveryKeepsSession(s, plan.generation, result.rows);
      FreedSessionIsUnused(freed, running', plan);
      ChangeSession(freed, running', plan.repository, Recovered(s, plan.generation, plan.boundaryRoots, result.rows));
    case BecomesBlocked =>
      ReleaseKeeps(d, running, plan.laneKey, Some(Blocked(plan.origin, RemoteRecoveryBlocked, false)), Some(operation));
    case StaysIndeterminate =>
      ReleaseKeeps(d, running, plan.laneKey,
        Some(Recovering(plan.origin, None, UsedIds(d, plan.laneKey) + {operation})), Some(operation));
  }

  lemma FreedSessionIsUnused(d: Daemon, running: Running, plan: RecoveryPlan)
    requires DaemonOk(d, running) && PlanOk(d, plan) && plan.laneKey !in d.lanes
    ensures Unused(d, running, plan.repository)
  {
    forall operation | operation in running && running[operation].RecoveryTask?
      ensures running[operation].plan.repository != plan.repository
    {
      assert WorkOk(d, running[operation], operation);
    }
    forall key | key in d.lanes && d.lanes[key].Active? ensures d.lanes[key].repository != Some(plan.repository) {
      assert LaneOk(d, running, key);
    }
  }
}
