/** The daemon's open sessions and remote native lanes: who may use a working copy, what a settled
    worker leaves behind, and how an indeterminate working copy is recovered. */
module Lanes {
  import opened Collections
  import opened Options
  import opened Paths
  import opened Status

  const MAX_RECOVERY_IDS: nat := 64

  datatype Effect = ReadOnly | Mutation

  datatype FailureClass = RemoteRecoveryBlocked | RemoteOperationIndeterminate | OtherFailure

  datatype Lane =
    | Active(operation: string, effect: Effect, repository: Option<string>, epoch: Option<nat>)
    | Recovering(origin: string, recovery: Option<string>, used: set<string>)
    /** No failure is classified as one that calls for cleanup, so the flag is never set. */
    | Blocked(origin: string, reason: FailureClass, cleanupAppropriate: bool)

  /** `RemoteWorkerSettlement`; the failure itself is reduced to whether there is one. */
  datatype Settlement = Settlement(
    ok: bool, effect: Effect, resumed: bool, originKnown: bool, descendantsZero: bool, tempRootRemoved: bool)
  {
    predicate CleanupSafe() { descendantsZero && tempRootRemoved }

    predicate MayHaveMutated() { effect == Mutation && (resumed || !originKnown) }
  }

  /** `RemoteWorkerSettlement::pre_launch` with a failure. */
  function PreLaunchFailure(effect: Effect): Settlement {
    Settlement(false, effect, false, true, true, true)
  }

  datatype LaunchPlan = LaunchPlan(laneKey: string, operation: string, effect: Effect)

  datatype RecoveryPlan = RecoveryPlan(
    repository: string, epoch: nat, laneKey: string, origin: string, operation: string,
    boundaryRoots: seq<string>, generation: nat)

  datatype Daemon = Daemon(
    repositories: map<string, Session>, nextEpoch: nat,
    lanes: map<string, Lane>, activeIds: set<string>)

  // ---- The gate in front of dispatch ----

  /** The lane answers for every path that overlaps it. */
  ghost predicate Gated(d: Daemon, keys: set<string>) {
    exists k, l :: k in keys && l in d.lanes && Overlap(k, l)
  }

  /** The overlap that is reported: the first of the request's keys, and for it the first lane. */
  ghost predicate FirstOverlap(d: Daemon, keys: set<string>, k: string, l: string) {
    && k in keys && l in d.lanes && Overlap(k, l)
    && forall j, m :: j in keys && m in d.lanes && Overlap(j, m) ==> StringLeq(k, j) && (j == k ==> StringLeq(l, m))
  }

  /** Path keys of a request: its repository's root, and the absolute paths it names. */
  function RequestKeys(d: Daemon, repository: Option<string>, paths: set<string>): set<string> {
    (if repository.Some? && repository.value in d.repositories
     then {AbsoluteKey(d.repositories[repository.value].root)} else {})
    + set p | p in paths :: AbsoluteKey(p)
  }

  // ---- Launching a remote operation ----

  datatype Refusal = OperationInProgress | LaneBusy | OperationIndeterminate | RecoveryBlocked

  function RefusalFor(lane: Lane): Refusal {
    match lane
    case Active(_, _, _, _) => LaneBusy
    case Recovering(_, _, _) => OperationIndeterminate
    case Blocked(_, _, _) => RecoveryBlocked
  }

  /** The session a lane is attributed to: the first by id whose root has the lane's key, if there is one. */
  predicate Attributes(d: Daemon, key: string, repository: Option<string>) {
    match repository
    case Some(r) =>
      && r in d.repositories && AbsoluteKey(d.repositories[r].root) == key
      && forall q :: q in d.repositories && AbsoluteKey(d.repositories[q].root) == key ==> StringLeq(r, q)
    case None => forall r :: r in d.repositories ==> AbsoluteKey(d.repositories[r].root) != key
  }

  function ReserveRefusal(d: Daemon, key: string, operation: string): Option<Refusal> {
    if operation in d.activeIds then Some(OperationInProgress)
    else if key in d.lanes then Some(RefusalFor(d.lanes[key]))
    else None
  }

  function Reserve(d: Daemon, key: string, operation: string, effect: Effect, repository: Option<string>,
      epoch: Option<nat>): Daemon
  {
    if ReserveRefusal(d, key, operation).Some? then d
    else d.(activeIds := d.activeIds + {operation},
            lanes := d.lanes[key := Active(operation, effect, repository, epoch)])
  }

  // ---- Settling a launch ----

  /** What an occupied lane becomes; `None` frees it. */
  function SettledLane(lane: Lane, st: Settlement): Option<Lane>
    requires lane.Active?
  {
    if lane.repository.None? != lane.epoch.None? then
      Some(Blocked(lane.operation, RemoteOperationIndeterminate, false))
    else if lane.effect != st.effect || !st.CleanupSafe() then
      Some(Blocked(lane.operation, RemoteRecoveryBlocked, false))
    else if !st.ok && st.MayHaveMutated() then
      Some(if lane.repository.None? then Blocked(lane.operation, RemoteOperationIndeterminate, false)
           else Recovering(lane.operation, None, {}))
    else None
  }

  function Put(lanes: map<string, Lane>, key: string, lane: Option<Lane>): map<string, Lane> {
    match lane
    case Some(l) => lanes[key := l]
    case None => lanes - {key}
  }

  predicate Holds(d: Daemon, key: string, operation: string) {
    key in d.lanes && d.lanes[key].Active? && d.lanes[key].operation == operation
  }

  /** `settle_remote_launch`; a settlement that matches no lane only forgets an unowned id. */
  function SettleLaunch(d: Daemon, key: string, operation: string, st: Settlement): Daemon {
    if Holds(d, key, operation) then
      d.(activeIds := d.activeIds - {operation},
         lanes := Put(d.lanes, key, SettledLane(d.lanes[key], st)))
    else if exists k :: k in d.lanes && k != key && Holds(d, k, operation) then d
    else d.(activeIds := d.activeIds - {operation})
  }

  /** Does settling return the failure that overrides the worker's own result? */
  predicate SettleOverrides(d: Daemon, key: string, operation: string, st: Settlement) {
    Holds(d, key, operation) && var l := SettledLane(d.lanes[key], st); l.Some? && l.value.Blocked?
  }

  // ---- Recovery ----

  datatype RecoveryStart =
    | NotOpen | IdReused | OriginMismatch | AlreadyBlocked | Busy | Exhausted | InvalidIds
    | Launch(plan: RecoveryPlan)

  predicate IsReused(d: Daemon, key: string, operation: string) {
    || operation in d.activeIds
    || (key in d.lanes && d.lanes[key].Recovering? &&
        (|| d.lanes[key].origin == operation || d.lanes[key].recovery == Some(operation)
         || operation in d.lanes[key].used))
  }

  /** `dispatch_remote_recover_working_copy`: it passes no gate and may claim a free lane. */
  function RecoveryStartOf(d: Daemon, repository: string, epoch: nat, origin: string, operation: string): RecoveryStart
  {
    if origin == operation then InvalidIds
    else if repository !in d.repositories || d.repositories[repository].epoch != epoch then NotOpen
    else
      var s := d.repositories[repository];
      var key := AbsoluteKey(s.root);
      var plan := RecoveryPlan(repository, epoch, key, origin, operation, s.boundaryRoots, s.nextGeneration);
      if IsReused(d, key, operation) then IdReused
      else if key !in d.lanes then Launch(plan)
      else
        match d.lanes[key]
        case Recovering(laneOrigin, None, used) =>
          if laneOrigin != origin then OriginMismatch
          else if |used| >= MAX_RECOVERY_IDS then Exhausted
          else Launch(plan)
        case Blocked(_, _, _) => AlreadyBlocked
        case _ => Busy
  }

  function UsedIds(d: Daemon, key: string): set<string> {
    if key in d.lanes && d.lanes[key].Recovering? then d.lanes[key].used else {}
  }

  function StartRecovery(d: Daemon, repository: string, epoch: nat, origin: string, operation: string): Daemon {
    match RecoveryStartOf(d, repository, epoch, origin, operation)
    case Launch(plan) =>
      d.(activeIds := d.activeIds + {operation},
         lanes := d.lanes[plan.laneKey := Recovering(origin, Some(operation), UsedIds(d, plan.laneKey))])
    case Exhausted =>
      var key := AbsoluteKey(d.repositories[repository].root);
      d.(lanes := d.lanes[key := Blocked(origin, RemoteRecoveryBlocked, false)])
    case _ => d
  }

  datatype RecoveryResult = RecoveredRows(rows: seq<Entry>) | RecoveryFailed(reason: FailureClass)

  datatype RecoveryReply = SettlementInvalid | SessionLost | Safe | StaysIndeterminate | BecomesBlocked

  predicate RecoveryMatches(d: Daemon, plan: RecoveryPlan) {
    && plan.laneKey in d.lanes && d.lanes[plan.laneKey].Recovering?
    && d.lanes[plan.laneKey].origin == plan.origin
    && d.lanes[plan.laneKey].recovery == Some(plan.operation)
  }

  function RecoveryReplyOf(d: Daemon, plan: RecoveryPlan, result: RecoveryResult): RecoveryReply {
    if !RecoveryMatches(d, plan) then SettlementInvalid
    else
      match result
      case RecoveredRows(_) =>
        if plan.repository !in d.repositories || d.repositories[plan.repository].epoch != plan.epoch then SessionLost
        else Safe
      case RecoveryFailed(reason) => if reason == RemoteRecoveryBlocked then BecomesBlocked else StaysIndeterminate
  }

  /** `settle_remote_recovery` and `finish_indeterminate_recovery`. */
  function SettleRecovery(d: Daemon, plan: RecoveryPlan, result: RecoveryResult): Daemon {
    var d' := d.(activeIds := d.activeIds - {plan.operation});
    match RecoveryReplyOf(d, plan, result)
    case SettlementInvalid => d'
    case SessionLost => d'
    case Safe =>
      var s := d.repositories[plan.repository];
      var s' := Recovered(s, plan.generation, plan.boundaryRoots, result.rows);
      d'.(repositories := d.repositories[plan.repository := s'],
          lanes := d.lanes - {plan.laneKey})
    case BecomesBlocked =>
      d'.(lanes := d.lanes[plan.laneKey := Blocked(plan.origin, RemoteRecoveryBlocked, false)])
    case StaysIndeterminate =>
      d'.(lanes := d.lanes[plan.laneKey :=
            Recovering(plan.origin, None, UsedIds(d, plan.laneKey) + {plan.operation})])
  }

  // ---- Sessions ----

  /** `valid_repository_relative_path`. */
  predicate ValidRelativePath(path: string) {
    path == "." ||
    (&& !(forall i :: 0 <= i < |path| ==> IsWhitespace(path[i]))
     && var text := Slashes(path);
        && text[0] != '/' && ':' !in text && '\0' !in text
        && forall part :: part in Split(text) ==> part != "" && part != "." && part != "..")
  }

  predicate ValidBoundaries(roots: seq<string>) {
    forall i :: 0 <= i < |roots| ==> ValidRelativePath(roots[i]) && roots[i] != "."
  }

  /** `boundary_root_relative_path`: the part of an absolute path below the working copy's root. */
  function RelativeBoundary(root: string, boundary: string): Option<string> {
    var r, b := TrimEnd(Slashes(root)), TrimEnd(Slashes(boundary));
    if IsDescendant(Fold(b), Fold(r)) then Some(TrimEnd(TrimStart(b[|r| + 1..]))) else None
  }

  /** A boundary as a path below the root with its key, unless it is no proper path. */
  datatype Boundary = BadBoundary | Boundary(path: string, key: string)

  function BoundaryFor(root: string, text: string): Boundary {
    var path := RelativeBoundary(root, text);
    if path.None? || !ValidRelativePath(path.value) || path.value == "." then BadBoundary
    else Boundary(path.value, StatusKey(path.value))
  }

  function BoundariesFor(root: string, texts: seq<string>): (r: seq<Boundary>)
    ensures |r| == |texts| && forall i :: 0 <= i < |r| ==> r[i] == BoundaryFor(root, texts[i])
  {
    seq(|texts|, i requires 0 <= i < |texts| => BoundaryFor(root, texts[i]))
  }

  predicate HasKey(bs: seq<Boundary>, key: string) {
    exists i :: 0 <= i < |bs| && bs[i].Boundary? && bs[i].key == key
  }

  /** One more boundary: none at all if it is bad, nothing new if its key has been seen. */
  function AddBoundary(kept: Option<seq<Boundary>>, b: Boundary): Option<seq<Boundary>> {
    if kept.None? || b.BadBoundary? then None
    else if HasKey(kept.value, b.key) then kept
    else Some(kept.value + [b])
  }

  /** The first `n` boundaries, each key once. */
  function Collected(bs: seq<Boundary>, n: nat): Option<seq<Boundary>>
    requires n <= |bs|
  {
    if n == 0 then Some([]) else AddBoundary(Collected(bs, n - 1), bs[n - 1])
  }

  function BoundaryPaths(bs: seq<Boundary>): (paths: seq<string>)
    ensures |paths| == |bs| && forall i :: 0 <= i < |bs| && bs[i].Boundary? ==> paths[i] == bs[i].path
  {
    seq(|bs|, i requires 0 <= i < |bs| => if bs[i].Boundary? then bs[i].path else "")
  }

  /** `repository_boundary_roots`. */
  function RelativeBoundaries(root: string, texts: seq<string>): Option<seq<string>> {
    var kept := Collected(BoundariesFor(root, texts), |texts|);
    if kept.None? then None else Some(BoundaryPaths(kept.value))
  }

  datatype Identity = Identity(repository: string, root: string, boundaryRoots: seq<string>)

  function OpenSession(d: Daemon, repository: string, root: string, boundaries: Option<seq<string>>): Daemon {
    if boundaries.None? || repository in d.repositories then d
    else d.(nextEpoch := d.nextEpoch + 1,
            repositories := d.repositories[repository := Session(root, d.nextEpoch, boundaries.value, 1, map[], map[])])
  }

  /** `repository/open`, given the identity the bridge found and the absolute boundaries of the request. */
  function Open(d: Daemon, found: Option<Identity>): Daemon {
    if found.None? then d
    else
      var id := found.value;
      OpenSession(d, id.repository, id.root, RelativeBoundaries(id.root, id.boundaryRoots))
  }

  predicate IsOpen(d: Daemon, repository: string, epoch: nat) {
    repository in d.repositories && d.repositories[repository].epoch == epoch
  }

  function Close(d: Daemon, repository: string, epoch: nat): Daemon {
    if IsOpen(d, repository, epoch) then d.(repositories := d.repositories - {repository}) else d
  }

  function WithSession(d: Daemon, repository: string, s: Session): Daemon {
    d.(repositories := d.repositories[repository := s])
  }
}
