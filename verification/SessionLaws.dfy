/** What opening and closing a repository mean, and what over every run becomes of a closed session and
    of a loop that was shut down. */
module SessionLaws {
  import opened Options
  import opened Paths
  import opened Status
  import opened Lanes
  import opened Stdio
  import opened LaneTheorems
  import opened StdioTheorems
  import RefreshLaws
  import StatusLaws
  import StatusTheorems

  // ---- Boundaries ----

  lemma {:induction false} CollectedIff(bs: seq<Boundary>, n: nat)
    requires n <= |bs|
    ensures Collected(bs, n).Some? <==> forall i :: 0 <= i < n ==> bs[i].Boundary?
  {
    if n > 0 {
      CollectedIff(bs, n - 1);
    }
  }

  lemma SlashesTwice(s: string)
    ensures Slashes(Slashes(s)) == Slashes(s)
  {
  }

  lemma ValidPathEnds(path: string)
    requires ValidRelativePath(path) && path != "."
    ensures path != "" && Slashes(path)[0] != '/' && Slashes(path)[|path| - 1] != '/'
    ensures ValidRelativePath(Slashes(path)) && Slashes(path) != "."
  {
    var text := Slashes(path);
    SlashesTwice(path);
    if text[|text| - 1] == '/' { TrailingSlashSplits(text); }
    var i :| 0 <= i < |path| && !IsWhitespace(path[i]);
    assert !IsWhitespace(text[i]);
  }

  lemma TrimStartAt(b: string, n: nat)
    requires n < |b| && b[n] != '/' && forall i :: 0 <= i < n ==> b[i] == '/'
    ensures TrimStart(b) == b[n..]
  {
    var x := TrimStart(b);
    var k := |b| - |x|;
    assert x != "" ==> x[0] == b[k];
    assert k == n;
  }

  lemma TrimEndOf(b: string)
    requires b != "" && b[|b| - 1] != '/'
    ensures TrimEnd(b) == b
  {
  }

  lemma FoldBelow(b: string, m: nat)
    requires m < |b| && b[m] == '/'
    ensures IsDescendant(Fold(b), Fold(b[..m]))
  {
    assert Fold(b)[..m] == Fold(b[..m]);
  }

  /** What is left of a path below `b[..m]` once the slashes around it are gone. */
  lemma BelowRoot(b: string, m: nat, n: nat)
    requires m < n < |b| && b[n] != '/' && b[|b| - 1] != '/' && forall i :: m <= i < n ==> b[i] == '/'
    ensures TrimEnd(TrimStart(b[m + 1..])) == b[n..]
  {
    var rest := b[m + 1..];
    assert rest[n - m - 1] == b[n];
    TrimStartAt(rest, n - m - 1);
    assert rest[n - m - 1..] == b[n..];
    TrimEndOf(b[n..]);
  }

  lemma RelativeBoundaryIs(root: string, boundary: string, r: string, b: string, rest: string)
    requires TrimEnd(Slashes(root)) == r && TrimEnd(Slashes(boundary)) == b
    requires IsDescendant(Fold(b), Fold(r)) && TrimEnd(TrimStart(b[|r| + 1..])) == rest
    ensures RelativeBoundary(root, boundary) == Some(rest)
  {
  }

  lemma RelativeBoundaryAt(root: string, boundary: string, b: string, m: nat, n: nat)
    requires b == Slashes(boundary) && m < n < |b| && b[n] != '/' && b[|b| - 1] != '/'
    requires (forall i :: m <= i < n ==> b[i] == '/') && TrimEnd(Slashes(root)) == b[..m]
    ensures RelativeBoundary(root, boundary) == Some(b[n..])
  {
    assert TrimEnd(b) == b by { TrimEndOf(b); }
    assert IsDescendant(Fold(b), Fold(b[..m])) by { FoldBelow(b, m); }
    assert TrimEnd(TrimStart(b[m + 1..])) == b[n..] by { BelowRoot(b, m, n); }
    RelativeBoundaryIs(root, boundary, b[..m], b, b[n..]);
  }

  /** How a boundary made of a root and a path looks once its slashes are straightened. */
  lemma JoinedPath(root: string, path: string, r: string, b: string)
    requires r == TrimEnd(Slashes(root)) && b == Slashes(root + "/" + path)
    ensures |b| == |root| + 1 + |path| && |r| <= |root| && b[..|r|] == r && b[|root| + 1..] == Slashes(path)
    ensures forall i :: |r| <= i < |root| + 1 ==> b[i] == '/'
  {
    var whole := Slashes(root);
    assert forall i :: 0 <= i < |root| ==> b[i] == whole[i];
  }

  lemma ReadBackAs(root: string, boundary: string, text: string)
    requires RelativeBoundary(root, boundary) == Some(text) && ValidRelativePath(text) && text != "."
    ensures BoundaryFor(root, boundary) == Boundary(text, StatusKey(text))
  {
  }

  lemma PathIsReadBack(root: string, path: string)
    requires path != "" && Slashes(path)[0] != '/' && Slashes(path)[|path| - 1] != '/'
    ensures RelativeBoundary(root, root + "/" + path) == Some(Slashes(path))
  {
    var r, b, n := TrimEnd(Slashes(root)), Slashes(root + "/" + path), |root| + 1;
    JoinedPath(root, path, r, b);
    assert b[n] == b[n..][0] && b[|b| - 1] == b[n..][|path| - 1];
    RelativeBoundaryAt(root, root + "/" + path, b, |r|, n);
  }

  /** A proper path below the root, given as an absolute boundary, is found again whatever its slashes. */
  lemma BoundaryIsReadBack(root: string, path: string)
    requires ValidRelativePath(path) && path != "."
    ensures BoundaryFor(root, root + "/" + path) == Boundary(Slashes(path), StatusKey(path))
  {
    ValidPathEnds(path);
    PathIsReadBack(root, path);
    ReadBackAs(root, root + "/" + path, Slashes(path));
    SlashesTwice(path);
  }

  predicate AllProper(root: string, texts: seq<string>) {
    forall i :: 0 <= i < |texts| ==> BoundaryFor(root, texts[i]).Boundary?
  }

  /** These roots hold exactly the paths inside one of the boundaries. */
  ghost predicate MeansInside(roots: seq<string>, bs: seq<Boundary>) {
    forall path :: InsideBoundary(path, roots) <==> InsideOneOf(StatusKey(path), bs)
  }

  lemma BoundariesAreProperIff(root: string, texts: seq<string>)
    ensures RelativeBoundaries(root, texts).Some? <==> AllProper(root, texts)
  {
    var bs := BoundariesFor(root, texts);
    CollectedIff(bs, |texts|);
    assert forall i :: 0 <= i < |texts| ==> bs[i] == BoundaryFor(root, texts[i]);
  }

  lemma BoundariesMeanInside(root: string, texts: seq<string>, roots: seq<string>)
    requires RelativeBoundaries(root, texts) == Some(roots)
    ensures MeansInside(roots, BoundariesFor(root, texts))
  {
    forall path ensures InsideBoundary(path, roots) <==> InsideOneOf(StatusKey(path), BoundariesFor(root, texts)) {
      InsideIff(root, texts, path);
    }
  }

  // ---- Opening and closing ----

  /** The bridge found a repository that is not open, and every boundary is a proper path below its root. */
  predicate CanOpen(d: Daemon, found: Option<Identity>) {
    found.Some? && found.value.repository !in d.repositories && AllProper(found.value.root, found.value.boundaryRoots)
  }

  predicate OthersUnchanged(d: Daemon, d': Daemon, repository: string) {
    && d'.lanes == d.lanes && d'.activeIds == d.activeIds
    && d'.repositories - {repository} == d.repositories - {repository}
  }

  /** One session more: under a fresh epoch, empty, at generation 1, with exactly these boundaries. */
  ghost predicate Opened(d: Daemon, d': Daemon, repository: string, root: string, bs: seq<Boundary>) {
    && d'.nextEpoch == d.nextEpoch + 1 && OthersUnchanged(d, d', repository) && repository in d'.repositories
    && var s := d'.repositories[repository];
       && s.root == root && s.epoch == d.nextEpoch && s.nextGeneration == 1 && s.local == map[] && s.remote == map[]
       && MeansInside(s.boundaryRoots, bs)
  }

  lemma OpenedBy(d: Daemon, repository: string, root: string, roots: seq<string>, bs: seq<Boundary>)
    requires repository !in d.repositories && MeansInside(roots, bs)
    ensures Opened(d, OpenSession(d, repository, root, Some(roots)), repository, root, bs)
  {
  }

  /** A session is opened exactly then, with the boundaries asked for; otherwise nothing changes. */
  lemma OpenLaw(d: Daemon, found: Option<Identity>)
    ensures if CanOpen(d, found) then
        var id := found.value;
        Opened(d, Open(d, found), id.repository, id.root, BoundariesFor(id.root, id.boundaryRoots))
      else Open(d, found) == d
  {
    if found.Some? {
      var id := found.value;
      BoundariesAreProperIff(id.root, id.boundaryRoots);
      var roots := RelativeBoundaries(id.root, id.boundaryRoots);
      if CanOpen(d, found) {
        BoundariesMeanInside(id.root, id.boundaryRoots, roots.value);
        OpenedBy(d, id.repository, id.root, roots.value, BoundariesFor(id.root, id.boundaryRoots));
      }
    }
  }

  /** Closing removes exactly the session of this id and epoch. */
  lemma CloseLaw(d: Daemon, repository: string, epoch: nat)
    ensures var d' := Close(d, repository, epoch);
      && d'.nextEpoch == d.nextEpoch && OthersUnchanged(d, d', repository)
      && (repository in d'.repositories <==> repository in d.repositories && d.repositories[repository].epoch != epoch)
      && (repository in d'.repositories ==> d'.repositories[repository] == d.repositories[repository])
  {
  }

  // ---- Status requests ----

  /** The request's session is open and no lane overlaps its root. */
  ghost predicate Admitted(d: Daemon, repository: string, epoch: nat) {
    IsOpen(d, repository, epoch)
    && forall l :: l in d.lanes ==> !Overlap(AbsoluteKey(d.repositories[repository].root), l)
  }

  lemma AdmittedIff(d: Daemon, repository: string, epoch: nat)
    requires IsOpen(d, repository, epoch)
    ensures Admitted(d, repository, epoch) <==> !Gated(d, RequestKeys(d, Some(repository), {}))
  {
    var key := AbsoluteKey(d.repositories[repository].root);
    assert RequestKeys(d, Some(repository), {}) == {key};
    assert key in {key};
  }

  /** Only this session changes; the session itself stays open. */
  predicate ChangesSession(d: Daemon, d': Daemon, repository: string) {
    d'.nextEpoch == d.nextEpoch && OthersUnchanged(d, d', repository) && repository in d'.repositories
  }

  predicate IsStatusRequest(r: Request) { r.GetSnapshot? || r.RefreshStatus? || r.CheckLocally? }

  lemma ServedFrame(d: Daemon, r: Request)
    requires IsStatusRequest(r)
    ensures if IsOpen(d, r.repository, r.epoch) then ChangesSession(d, Served(d, r), r.repository)
            else Served(d, r) == d
  {
  }

  lemma StatusDispatch(d: Daemon, r: Request, attribution: Option<string>)
    requires IsStatusRequest(r)
    ensures Dispatch(d, r, attribution).0
         == if Gated(d, RequestKeys(d, Some(r.repository), {})) then d else Served(d, r)
  {
    assert KeysOf(d, r) == RequestKeys(d, Some(r.repository), {});
  }

  /** A status request that is not admitted changes nothing; any other only its session. */
  lemma StatusRequestFrame(d: Daemon, r: Request, attribution: Option<string>)
    requires IsStatusRequest(r)
    ensures var d' := Dispatch(d, r, attribution).0;
      if Admitted(d, r.repository, r.epoch) then d' == Served(d, r) && ChangesSession(d, d', r.repository)
      else d' == d
  {
    assert Dispatch(d, r, attribution).0
        == if Gated(d, RequestKeys(d, Some(r.repository), {})) then d else Served(d, r) by {
      StatusDispatch(d, r, attribution);
    }
    ServedFrame(d, r);
    if IsOpen(d, r.repository, r.epoch) {
      AdmittedIff(d, r.repository, r.epoch);
    }
  }

  /** An admitted snapshot leaves its session as a snapshot of the rows reported should. */
  lemma SnapshotRequestLaw(d: Daemon, r: Request)
    requires r.GetSnapshot? && r.outcome.Some? && IsOpen(d, r.repository, r.epoch)
    requires DistinctPaths(r.outcome.value.local) && DistinctPaths(r.outcome.value.remote)
    ensures StatusLaws.SnapshotMeans(d.repositories[r.repository], Served(d, r).repositories[r.repository],
      r.outcome.value)
  {
    StatusLaws.SnapshotLaw(d.repositories[r.repository], r.outcome.value);
  }

  /** So does an admitted remote check. */
  lemma CheckRequestLaw(d: Daemon, r: Request)
    requires r.CheckLocally? && r.outcome.Some? && IsOpen(d, r.repository, r.epoch)
    requires DistinctPaths(r.outcome.value.remote)
    ensures StatusLaws.CheckMeans(d.repositories[r.repository], Served(d, r).repositories[r.repository],
      r.outcome.value)
  {
    StatusLaws.CheckRemoteLaw(d.repositories[r.repository], r.outcome.value);
  }

  /** So does an admitted refresh. */
  lemma RefreshRequestLaw(d: Daemon, r: Request, active: seq<Target>)
    requires r.RefreshStatus? && IsOpen(d, r.repository, r.epoch) && SessionsOk(d)
    requires active == ActiveTargets(r.targets, d.repositories[r.repository].boundaryRoots)
    requires RefreshLaws.Tidy(active, r.answers)
    ensures RefreshLaws.RefreshMeans(d.repositories[r.repository], Served(d, r).repositories[r.repository], active,
      r.answers)
  {
    RefreshLaws.RefreshLaw(d.repositories[r.repository], r.targets, r.answers, active);
  }

  // ---- Opening, closing and relocating as requests ----

  /** Some lane overlaps one of these paths. */
  ghost predicate InTheWay(d: Daemon, paths: set<string>) {
    exists p, l :: p in paths && l in d.lanes && Overlap(AbsoluteKey(p), l)
  }

  lemma PathsGate(d: Daemon, paths: set<string>)
    ensures Gated(d, RequestKeys(d, None, paths)) <==> InTheWay(d, paths)
  {
    if p, l :| p in paths && l in d.lanes && Overlap(AbsoluteKey(p), l) {
      assert AbsoluteKey(p) in RequestKeys(d, None, paths);
    }
  }

  lemma OpenDispatch(d: Daemon, paths: set<string>, found: Option<Identity>, attribution: Option<string>)
    ensures Dispatch(d, OpenRepository(paths, found), attribution).0
         == if InTheWay(d, paths) then d else Open(d, found)
  {
    PathsGate(d, paths);
  }

  /** What a request to open leaves: one session more, exactly if it can be opened and no lane is in the way. */
  ghost predicate OpenedIfPossible(d: Daemon, d': Daemon, paths: set<string>, found: Option<Identity>) {
    if CanOpen(d, found) && !InTheWay(d, paths) then
      var id := found.value;
      Opened(d, d', id.repository, id.root, BoundariesFor(id.root, id.boundaryRoots))
    else d' == d
  }

  lemma OpenLeaves(d: Daemon, d': Daemon, paths: set<string>, found: Option<Identity>)
    requires d' == if InTheWay(d, paths) then d else Open(d, found)
    ensures OpenedIfPossible(d, d', paths, found)
  {
    OpenLaw(d, found);
  }

  lemma OpenRequestLaw(d: Daemon, paths: set<string>, found: Option<Identity>, attribution: Option<string>)
    ensures OpenedIfPossible(d, Dispatch(d, OpenRepository(paths, found), attribution).0, paths, found)
  {
    OpenDispatch(d, paths, found, attribution);
    OpenLeaves(d, Dispatch(d, OpenRepository(paths, found), attribution).0, paths, found);
  }

  lemma SessionDispatch(d: Daemon, r: Request, attribution: Option<string>)
    requires r.CloseRepository? || r.Relocate?
    ensures Dispatch(d, r, attribution).0
         == if Gated(d, RequestKeys(d, Some(r.repository), {})) then d else Served(d, r)
  {
    assert KeysOf(d, r) == RequestKeys(d, Some(r.repository), {});
  }

  /** A session is closed on request exactly if it is open and no lane overlaps its root. */
  lemma CloseRequestLaw(d: Daemon, r: Request, attribution: Option<string>)
    requires r.CloseRepository?
    ensures var d' := Dispatch(d, r, attribution).0;
      if Admitted(d, r.repository, r.epoch) then
        r.repository !in d'.repositories && d'.nextEpoch == d.nextEpoch && OthersUnchanged(d, d', r.repository)
      else d' == d
  {
    SessionDispatch(d, r, attribution);
    CloseLaw(d, r.repository, r.epoch);
    if IsOpen(d, r.repository, r.epoch) {
      AdmittedIff(d, r.repository, r.epoch);
    }
  }

  /** A relocation changes the root of its open session and nothing else. */
  lemma RelocateRequestLaw(d: Daemon, r: Request, attribution: Option<string>)
    requires r.Relocate?
    ensures var d' := Dispatch(d, r, attribution).0;
      if Admitted(d, r.repository, r.epoch) then
        && ChangesSession(d, d', r.repository)
        && d'.repositories[r.repository] == d.repositories[r.repository].(root := r.root)
      else d' == d
  {
    SessionDispatch(d, r, attribution);
    if IsOpen(d, r.repository, r.epoch) {
      AdmittedIff(d, r.repository, r.epoch);
    }
  }

  // ---- Over every run ----

  /** Whatever session is open under an epoch handed out before was open then. */
  predicate OpenedBefore(d: Daemon, d': Daemon) {
    && d.nextEpoch <= d'.nextEpoch
    && forall r :: r in d'.repositories && d'.repositories[r].epoch < d.nextEpoch ==>
         IsOpen(d, r, d'.repositories[r].epoch)
  }

  lemma ServedOpensNothingOld(d: Daemon, r: Request)
    ensures OpenedBefore(d, Served(d, r))
  {
  }

  lemma SettlingOpensNothing(d: Daemon, key: string, operation: string, st: Settlement)
    ensures OpenedBefore(d, SettleLaunch(d, key, operation, st))
  {
  }

  lemma SettlingRecoveryOpensNothing(d: Daemon, plan: RecoveryPlan, result: RecoveryResult)
    ensures OpenedBefore(d, SettleRecovery(d, plan, result))
  {
  }

  lemma DispatchOpensNothingOld(d: Daemon, r: Request, attribution: Option<string>)
    ensures OpenedBefore(d, Dispatch(d, r, attribution).0)
  {
    ServedOpensNothingOld(d, r);
  }

  lemma OpenedBeforeBoth(a: Daemon, b: Daemon, c: Daemon)
    requires OpenedBefore(a, b) && OpenedBefore(b, c)
    ensures OpenedBefore(a, c)
  {
    forall r | r in c.repositories && c.repositories[r].epoch < a.nextEpoch
      ensures IsOpen(a, r, c.repositories[r].epoch)
    {
      assert IsOpen(b, r, c.repositories[r].epoch);
    }
  }

  lemma RestOpensNothing(l: Loop, d: Daemon, outcome: Dispatched, shutdown: bool, started: bool, failure: FailureClass)
    ensures OpenedBefore(d, Settled(l, d, outcome, shutdown, started, failure).daemon)
  {
    match outcome
    case Replied =>
    case Launched(launch) =>
      SettlingOpensNothing(d, launch.laneKey, launch.operation, PreLaunchFailure(launch.effect));
    case RecoveryLaunched(plan) =>
      SettlingRecoveryOpensNothing(d, plan, RecoveryFailed(if l.disconnected then OtherFailure else failure));
  }

  lemma EventOpensNothingOld(l: Loop, ev: Event)
    requires Enabled(l, ev)
    ensures OpenedBefore(l.daemon, Next(l, ev).daemon)
  {
    match ev
    case Receive(r, attribution, started, failure) =>
      var (d, outcome) := Dispatch(l.daemon, r, attribution);
      DispatchOpensNothingOld(l.daemon, r, attribution);
      RestOpensNothing(l, d, outcome, r.Shutdown?, started, failure);
      OpenedBeforeBoth(l.daemon, d, Next(l, ev).daemon);
    case WorkerDone(operation, settlement) =>
      SettlingOpensNothing(l.daemon, l.running[operation].launch.laneKey, operation, settlement);
    case RecoveryDone(operation, result) =>
      SettlingRecoveryOpensNothing(l.daemon, l.running[operation].plan, result);
    case _ =>
  }

  lemma {:induction false} OpenedBeforeInEveryRun(ls: seq<Loop>, evs: seq<Event>, i: nat, j: nat)
    requires Trace(ls, evs) && i <= j < |ls|
    ensures OpenedBefore(ls[i].daemon, ls[j].daemon)
  {
    if i < j {
      OpenedBeforeInEveryRun(ls, evs, i, j - 1);
      assert Steps(ls, evs, j - 1);
      EventOpensNothingOld(ls[j - 1], evs[j - 1]);
      OpenedBeforeBoth(ls[i].daemon, ls[j - 1].daemon, ls[j].daemon);
    }
  }

  /** A session once closed, or never opened though its epoch was handed out, is never open again. */
  lemma ClosedStaysClosed(ls: seq<Loop>, evs: seq<Event>, i: nat, j: nat, repository: string, epoch: nat)
    requires Trace(ls, evs) && i <= j < |ls|
    requires epoch < ls[i].daemon.nextEpoch && !IsOpen(ls[i].daemon, repository, epoch)
    ensures !IsOpen(ls[j].daemon, repository, epoch)
  {
    OpenedBeforeInEveryRun(ls, evs, i, j);
  }

  lemma {:induction false} TerminalStays(ls: seq<Loop>, evs: seq<Event>, i: nat, j: nat)
    requires Trace(ls, evs) && i <= j < |ls| && ls[i].terminal
    ensures ls[j].terminal
  {
    if i < j {
      TerminalStays(ls, evs, i, j - 1);
      assert Steps(ls, evs, j - 1);
    }
  }

  /** After a shutdown request, or once the loop noticed the end of the connection, no request is served. */
  lemma ShutdownIsFinal(ls: seq<Loop>, evs: seq<Event>, i: nat, j: nat)
    requires Trace(ls, evs) && i < j < |evs|
    requires evs[i].Stop? || (evs[i].Receive? && evs[i].request.Shutdown?)
    ensures !evs[j].Receive?
  {
    assert Steps(ls, evs, i);
    assert Steps(ls, evs, j);
    TerminalStays(ls, evs, i + 1, j);
  }
}
