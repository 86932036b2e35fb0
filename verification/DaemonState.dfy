/** The daemon's state object. Each method is proved to make the step that `Status`, `Lanes` and
    `Stdio` describe, so what is proved about those steps holds of these methods. */
module DaemonStateObject {
  import opened Collections
  import opened Options
  import opened Paths
  import opened Status
  import opened StatusRequests
  import StatusTheorems
  import opened Lanes
  import Stdio
  import LaneTheorems

  /** Lists the rows of a cache, each once. */
  method ListRows(c: Cache) returns (es: seq<Entry>)
    requires StatusTheorems.Keyed(c)
    ensures ListsRows(es, c)
  {
    es := [];
    var todo := c.Keys;
    while todo != {}
      invariant todo <= c.Keys && DistinctPaths(es)
      invariant forall e :: e in es <==> e.path in c && e.path !in todo && c[e.path] == e
      decreases |todo|
    {
      var p :| p in todo;
      es := es + [c[p]];
      todo := todo - {p};
    }
  }

  /** `changed_upserts` and `removed_paths`. */
  method Difference(before: Cache, after: Cache) returns (upsert: seq<Entry>, remove: seq<string>)
    requires StatusTheorems.Keyed(after)
    ensures Describes(upsert, remove, before, after)
  {
    upsert := ListRows(map p | p in after && !(p in before && before[p] == after[p]) :: after[p]);
    remove := [];
    var gone := before.Keys - after.Keys;
    var todo := gone;
    while todo != {}
      invariant todo <= gone && forall p :: p in remove <==> p in gone && p !in todo
      decreases |todo|
    {
      var p :| p in todo;
      remove := remove + [p];
      todo := todo - {p};
    }
  }

  method SummarizeCache(local: Cache, remote: Cache) returns (s: Summary)
    requires StatusTheorems.Keyed(local) && StatusTheorems.Keyed(remote)
    ensures s == CacheSummary(local, remote)
  {
    var localRows := ListRows(local);
    var remoteRows := ListRows(remote);
    s := Summarize(localRows, remoteRows);
    StatusTheorems.ListingSummary(localRows, remoteRows, local, remote);
  }

  method DeltaBetween(s: Session, s': Session) returns (d: Delta)
    requires StatusTheorems.SessionOk(s) && StatusTheorems.SessionOk(s')
    ensures DeltaOf(d, s, s')
  {
    var upsert, remove := Difference(s.local, s'.local);
    var remoteUpsert, remoteRemove := Difference(s.remote, s'.remote);
    var before := SummarizeCache(s.local, s.remote);
    var after := SummarizeCache(s'.local, s'.remote);
    d := Delta(s.nextGeneration, upsert, remove, remoteUpsert, remoteRemove, SummaryChange(before, after));
  }

  /** The successful half of `dispatch_status_get_snapshot`. */
  method SnapshotSession(s: Session, scan: Scan) returns (s': Session, reply: SnapshotReply)
    requires StatusTheorems.SessionOk(s)
    ensures s' == TakeSnapshot(s, Some(scan)) && SnapshotReplyOf(reply, s, scan)
  {
    var generation := s.nextGeneration;
    var local := Prepared(scan.local, generation, s.boundaryRoots);
    var remote := Bounded(scan.remote, generation, s.boundaryRoots);
    var localEntries := IndexLocal(local);
    if remote == [] {
      remote := ListRows(Restamped(s.remote, generation));
      StatusTheorems.ListingIndexes(remote, Restamped(s.remote, generation));
    }
    var remoteEntries := IndexRemote(remote);
    var summary := Summarize(local, remote);
    s' := s.(nextGeneration := generation + 1, local := localEntries, remote := remoteEntries);
    reply := SnapshotReply(generation, local, remote, summary);
  }

  /** The status part of `dispatch_status_refresh`: no delta if a scan failed. */
  method RefreshSession(s: Session, targets: seq<Target>, answers: seq<Option<Scan>>)
      returns (s': Session, delta: Option<Delta>)
    requires StatusTheorems.SessionOk(s)
    ensures s' == Refresh(s, targets, answers)
    ensures delta.Some? <==> AllAnswered(ActiveTargets(targets, s.boundaryRoots), answers)
    ensures delta.Some? ==> DeltaOf(delta.value, s, s')
  {
    var active := ActiveTargets(targets, s.boundaryRoots);
    var scans := ScanAll(active, answers, s.nextGeneration, s.boundaryRoots);
    if scans.None? {
      return s, None;
    }
    var next := MergeAll(s.local, scans.value);
    s' := s.(local := next, nextGeneration := s.nextGeneration + 1);
    StatusTheorems.RefreshKeepsSession(s, targets, answers);
    var d := DeltaBetween(s, s');
    delta := Some(d);
  }

  /** The status part of `dispatch_status_check_remote`, when the bridge serves it in place. */
  method CheckRemoteSession(s: Session, outcome: Option<Scan>) returns (s': Session, delta: Option<Delta>)
    requires StatusTheorems.SessionOk(s)
    ensures s' == CheckRemote(s, outcome)
    ensures delta.Some? <==> outcome.Some?
    ensures delta.Some? ==> DeltaOf(delta.value, s, s')
  {
    if outcome.None? {
      return s, None;
    }
    var remote := IndexRemote(Bounded(outcome.value.remote, s.nextGeneration, s.boundaryRoots));
    s' := s.(remote := remote, nextGeneration := s.nextGeneration + 1);
    StatusTheorems.CheckRemoteKeepsSession(s, outcome);
    var d := DeltaBetween(s, s');
    delta := Some(d);
  }

  method RecoverSession(s: Session, plan: RecoveryPlan, rows: seq<Entry>) returns (s': Session)
    ensures s' == Recovered(s, plan.generation, plan.boundaryRoots, rows)
  {
    var local := IndexLocal(Prepared(rows, plan.generation, plan.boundaryRoots));
    s' := s.(local := local, nextGeneration := s.nextGeneration + 1);
  }

  ghost predicate AreKeysOf(seen: set<string>, kept: seq<Boundary>) { forall key :: key in seen <==> HasKey(kept, key) }

  method AddIfNew(kept: seq<Boundary>, seen: set<string>, b: Boundary)
      returns (kept': seq<Boundary>, seen': set<string>)
    requires AreKeysOf(seen, kept) && b.Boundary?
    ensures AreKeysOf(seen', kept') && AddBoundary(Some(kept), b) == Some(kept')
  {
    if b.key in seen {
      return kept, seen;
    }
    forall key {
      LaneTheorems.HasKeyMore(kept, b, key);
    }
    kept', seen' := kept + [b], seen + {b.key};
  }

  /** The loop of `repository_boundary_roots`, with the keys it has seen. */
  method CollectBoundaries(bs: seq<Boundary>) returns (r: Option<seq<Boundary>>)
    ensures r == Collected(bs, |bs|)
  {
    var kept: seq<Boundary> := [];
    var seen: set<string> := {};
    for i := 0 to |bs|
      invariant Collected(bs, i) == Some(kept) && AreKeysOf(seen, kept)
    {
      if bs[i].BadBoundary? {
        BadBoundarySpoilsAll(bs, i + 1, |bs|);
        return None;
      }
      kept, seen := AddIfNew(kept, seen, bs[i]);
    }
    return Some(kept);
  }

  lemma {:induction false} BadBoundarySpoilsAll(bs: seq<Boundary>, n: nat, m: nat)
    requires n <= m <= |bs| && Collected(bs, n).None?
    ensures Collected(bs, m).None?
  {
    if n < m {
      BadBoundarySpoilsAll(bs, n, m - 1);
    }
  }

  method MakeBoundariesRelative(root: string, texts: seq<string>) returns (r: Option<seq<string>>)
    ensures r == RelativeBoundaries(root, texts)
  {
    var kept := CollectBoundaries(BoundariesFor(root, texts));
    return if kept.None? then None else Some(BoundaryPaths(kept.value));
  }

  class DaemonState {
    var repositories: map<string, Session>
    var nextEpoch: nat
    var lanes: map<string, Lane>
    var activeIds: set<string>

    function View(): Daemon
      reads this
    {
      Daemon(repositories, nextEpoch, lanes, activeIds)
    }

    constructor ()
      ensures View() == Stdio.START.daemon
    {
      repositories, nextEpoch, lanes, activeIds := map[], 1, map[], {};
    }

    // ---- Sessions and their status ----

    method AddSession(repository: string, root: string, boundaries: Option<seq<string>>) returns (isNew: bool)
      modifies this
      ensures View() == OpenSession(old(View()), repository, root, boundaries)
      ensures isNew <==> View() != old(View())
    {
      if boundaries.None? || repository in repositories {
        return false;
      }
      repositories := repositories[repository := Session(root, nextEpoch, boundaries.value, 1, map[], map[])];
      nextEpoch := nextEpoch + 1;
      return true;
    }

    method OpenRepository(found: Option<Identity>) returns (isNew: bool)
      modifies this
      ensures View() == Open(old(View()), found)
      ensures isNew <==> View() != old(View())
    {
      if found.None? {
        return false;
      }
      var boundaries := MakeBoundariesRelative(found.value.root, found.value.boundaryRoots);
      isNew := AddSession(found.value.repository, found.value.root, boundaries);
    }

    method CloseRepository(repository: string, epoch: nat) returns (closed: bool)
      modifies this
      ensures View() == Close(old(View()), repository, epoch)
      ensures closed <==> old(IsOpen(View(), repository, epoch))
    {
      closed := IsOpen(View(), repository, epoch);
      if closed {
        repositories := repositories - {repository};
      }
    }

    /** `dispatch_status_get_snapshot`. */
    method GetSnapshot(repository: string, epoch: nat, outcome: Option<Scan>) returns (reply: Option<SnapshotReply>)
      requires LaneTheorems.SessionsOk(View())
      modifies this
      ensures View() == if old(IsOpen(View(), repository, epoch))
                        then old(WithSession(View(), repository, TakeSnapshot(repositories[repository], outcome)))
                        else old(View())
      ensures reply.Some? <==> old(IsOpen(View(), repository, epoch)) && outcome.Some?
      ensures reply.Some? ==> old(SnapshotReplyOf(reply.value, repositories[repository], outcome.value))
      ensures LaneTheorems.SessionsOk(View())
    {
      if !IsOpen(View(), repository, epoch) {
        return None;
      }
      var s := repositories[repository];
      StatusTheorems.SnapshotKeepsSession(s, outcome);
      if outcome.None? {
        repositories := repositories[repository := s.(nextGeneration := s.nextGeneration + 1)];
        return None;
      }
      var s', r := SnapshotSession(s, outcome.value);
      repositories := repositories[repository := s'];
      return Some(r);
    }

    /** `dispatch_status_refresh`. */
    method RefreshStatus(repository: string, epoch: nat, targets: seq<Target>, answers: seq<Option<Scan>>)
        returns (delta: Option<Delta>)
      requires LaneTheorems.SessionsOk(View())
      modifies this
      ensures View() == if old(IsOpen(View(), repository, epoch))
                        then old(WithSession(View(), repository, Refresh(repositories[repository], targets, answers)))
                        else old(View())
      ensures delta.Some? <==> old(IsOpen(View(), repository, epoch)
                && AllAnswered(ActiveTargets(targets, repositories[repository].boundaryRoots), answers))
      ensures delta.Some? ==> DeltaOf(delta.value, old(repositories[repository]), repositories[repository])
      ensures LaneTheorems.SessionsOk(View())
    {
      if !IsOpen(View(), repository, epoch) {
        return None;
      }
      var s := repositories[repository];
      StatusTheorems.RefreshKeepsSession(s, targets, answers);
      var s', d := RefreshSession(s, targets, answers);
      repositories := repositories[repository := s'];
      return d;
    }

    /** `dispatch_status_check_remote`, when the bridge serves it in place. */
    method CheckRemoteStatus(repository: string, epoch: nat, outcome: Option<Scan>) returns (delta: Option<Delta>)
      requires LaneTheorems.SessionsOk(View())
      modifies this
      ensures View() == if old(IsOpen(View(), repository, epoch))
                        then old(WithSession(View(), repository, CheckRemote(repositories[repository], outcome)))
                        else old(View())
      ensures delta.Some? <==> old(IsOpen(View(), repository, epoch)) && outcome.Some?
      ensures delta.Some? ==> DeltaOf(delta.value, old(repositories[repository]), repositories[repository])
      ensures LaneTheorems.SessionsOk(View())
    {
      if !IsOpen(View(), repository, epoch) {
        return None;
      }
      var s := repositories[repository];
      StatusTheorems.CheckRemoteKeepsSession(s, outcome);
      var s', d := CheckRemoteSession(s, outcome);
      repositories := repositories[repository := s'];
      return d;
    }

    // ---- Lanes ----

    /** The first lane that overlaps a path. */
    method FirstLaneOver(key: string) returns (lane: Option<string>)
      ensures lane.None? ==> forall l :: l in lanes ==> !Overlap(key, l)
      ensures lane.Some? ==> lane.value in lanes && Overlap(key, lane.value)
      ensures lane.Some? ==> forall l :: l in lanes && Overlap(key, l) ==> StringLeq(lane.value, l)
    {
      var left := lanes.Keys;
      while left != {}
        invariant left <= lanes.Keys && forall l :: l in lanes && l !in left ==> !Overlap(key, l)
        decreases |left|
      {
        LeastExists(left);
        var l :| l in left && forall other :: other in left ==> StringLeq(l, other);
        if Overlap(key, l) {
          return Some(l);
        }
        left := left - {l};
      }
      return None;
    }

    /** `native_lane_failure_for_request`: the refusal of the first lane that overlaps the request. */
    method NativeLaneFailure(keys: set<string>) returns (failure: Option<Refusal>)
      ensures failure.Some? <==> Gated(View(), keys)
      ensures failure.Some? ==> exists k, l :: FirstOverlap(View(), keys, k, l) && failure.value == RefusalFor(lanes[l])
    {
      var todo := keys;
      while todo != {}
        invariant todo <= keys && forall k, l :: k in keys && k !in todo && l in lanes ==> !Overlap(k, l)
        decreases |todo|
      {
        LeastExists(todo);
        var key :| key in todo && forall other :: other in todo ==> StringLeq(key, other);
        var lane := FirstLaneOver(key);
        if lane.Some? {
          assert FirstOverlap(View(), keys, key, lane.value);
          return Some(RefusalFor(lanes[lane.value]));
        }
        todo := todo - {key};
      }
      return None;
    }

    /** The attribution lookup of `begin_remote_preflight`. */
    method FindAttribution(key: string) returns (repository: Option<string>)
      ensures Attributes(View(), key, repository)
    {
      var todo := repositories.Keys;
      while todo != {}
        invariant todo <= repositories.Keys
        invariant forall r :: r in repositories && r !in todo ==> AbsoluteKey(repositories[r].root) != key
        decreases |todo|
      {
        LeastExists(todo);
        var r :| r in todo && forall other :: other in todo ==> StringLeq(r, other);
        if AbsoluteKey(repositories[r].root) == key {
          return Some(r);
        }
        todo := todo - {r};
      }
      return None;
    }

    method ReserveRemoteLane(key: string, operation: string, effect: Effect, repository: Option<string>,
        epoch: Option<nat>) returns (refusal: Option<Refusal>)
      modifies this
      ensures refusal == old(ReserveRefusal(View(), key, operation))
      ensures View() == old(Reserve(View(), key, operation, effect, repository, epoch))
    {
      if operation in activeIds {
        return Some(OperationInProgress);
      }
      if key in lanes {
        return Some(RefusalFor(lanes[key]));
      }
      activeIds := activeIds + {operation};
      lanes := lanes[key := Active(operation, effect, repository, epoch)];
      return None;
    }

    /** `settle_remote_launch`; the result says whether the recovery-blocked failure is returned. */
    method SettleRemoteLaunch(key: string, operation: string, st: Settlement) returns (overrides: bool)
      modifies this
      ensures overrides == old(SettleOverrides(View(), key, operation, st))
      ensures View() == old(SettleLaunch(View(), key, operation, st))
    {
      if !Holds(View(), key, operation) {
        if !(exists k :: k in lanes && k != key && Holds(View(), k, operation)) {
          activeIds := activeIds - {operation};
        }
        return false;
      }
      var lane := lanes[key];
      activeIds := activeIds - {operation};
      if lane.repository.None? != lane.epoch.None? {
        lanes := lanes[key := Blocked(operation, RemoteOperationIndeterminate, false)];
        return true;
      }
      if lane.effect != st.effect || !st.CleanupSafe() {
        lanes := lanes[key := Blocked(operation, RemoteRecoveryBlocked, false)];
        return true;
      }
      if !st.ok && st.MayHaveMutated() {
        if lane.repository.None? {
          lanes := lanes[key := Blocked(operation, RemoteOperationIndeterminate, false)];
          return true;
        }
        lanes := lanes[key := Recovering(operation, None, {})];
        return false;
      }
      lanes := lanes - {key};
      return false;
    }

    /** `dispatch_remote_recover_working_copy`. */
    method RecoverWorkingCopy(repository: string, epoch: nat, origin: string, operation: string)
        returns (start: RecoveryStart)
      modifies this
      ensures start == old(RecoveryStartOf(View(), repository, epoch, origin, operation))
      ensures View() == old(StartRecovery(View(), repository, epoch, origin, operation))
    {
      if origin == operation {
        return InvalidIds;
      }
      if !IsOpen(View(), repository, epoch) {
        return NotOpen;
      }
      var s := repositories[repository];
      var key := AbsoluteKey(s.root);
      if IsReused(View(), key, operation) {
        return IdReused;
      }
      var used: set<string> := {};
      if key in lanes {
        match lanes[key] {
          case Recovering(laneOrigin, None, laneUsed) =>
            if laneOrigin != origin {
              return OriginMismatch;
            }
            used := laneUsed;
          case Blocked(_, _, _) => return AlreadyBlocked;
          case _ => return Busy;
        }
      }
      if |used| >= MAX_RECOVERY_IDS {
        lanes := lanes[key := Blocked(origin, RemoteRecoveryBlocked, false)];
        return Exhausted;
      }
      activeIds := activeIds + {operation};
      lanes := lanes[key := Recovering(origin, Some(operation), used)];
      return Launch(RecoveryPlan(repository, epoch, key, origin, operation, s.boundaryRoots, s.nextGeneration));
    }

    /** `settle_remote_recovery`. */
    method SettleRemoteRecovery(plan: RecoveryPlan, result: RecoveryResult) returns (reply: RecoveryReply)
      modifies this
      ensures reply == old(RecoveryReplyOf(View(), plan, result))
      ensures View() == old(SettleRecovery(View(), plan, result))
    {
      var matches := RecoveryMatches(View(), plan);
      activeIds := activeIds - {plan.operation};
      if !matches {
        return SettlementInvalid;
      }
      match result {
        case RecoveredRows(rows) =>
          if !IsOpen(View(), plan.repository, plan.epoch) {
            return SessionLost;
          }
          var s := repositories[plan.repository];
          var s' := RecoverSession(s, plan, rows);
          repositories := repositories[plan.repository := s'];
          lanes := lanes - {plan.laneKey};
          return Safe;
        case RecoveryFailed(reason) =>
          if reason == RemoteRecoveryBlocked {
            lanes := lanes[plan.laneKey := Blocked(plan.origin, reason, false)];
            return BecomesBlocked;
          }
          lanes := lanes[plan.laneKey := Recovering(plan.origin, None, lanes[plan.laneKey].used + {plan.operation})];
          return StaysIndeterminate;
      }
    }
  }
}
