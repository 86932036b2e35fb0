/** Calls of `execute_worker`, the processes they start and the registry, interleaved step by step.
    Once launches are blocked and the registry has been seen idle, no worker can start, and the only
    processes that can be alive are those of calls that gave up in setup without waiting them out. */
module RevokeFence {
  import opened WorkerRegistry

  /** How a call ended: it failed before its child was contained, it was refused registration, or it
      supervised its worker to the end. */
  datatype Exit = Early | Refusal | Supervised

  /** Where one call of `execute_worker` is. */
  datatype Stage =
    | Holding                             // reservation taken, no child yet
    | Spawned                             // suspended child, not yet in a job
    | Contained                           // child verified to be in its job
    | Failing                             // dropping its child, which is waited for only so long
    | Refused                             // job terminated, which is waited for only so long
    | Listed(id: nat)                     // registered, reservation still held
    | Supervising(id: nat)                // reservation dropped
    | Finished(clean: bool, exit: Exit)   // `clean`: the settlement says no process is left

  predicate HoldsReservation(s: Stage) { !s.Supervising? && !s.Finished? }

  predicate Enlisted(s: Stage) { s.Listed? || s.Supervising? }

  /** Calls are numbered; `processes` counts the live processes of each call, and the registry's jobs
      are named by the call that made them. */
  datatype World = World(registry: Registry, disconnected: bool, calls: map<nat, Stage>, processes: map<nat, nat>)

  const START := World(Registry(0, false, 0, map[]), false, map[], map[])

  datatype Step =
    | Enter(t: nat)
    | Spawn(t: nat)
    | Contain(t: nat)
    | Fail(t: nat)
    | Leave(t: nat)
    | Refuse(t: nat)
    | LeaveRefused(t: nat, seen: bool)
    | Enlist(t: nat)
    | DropLaunch(t: nat)
    | Settle(t: nat)
    | Retain(t: nat)
    | Fork(t: nat)
    | Exited(t: nat)
    | Disconnect
    | Block
    | Allow
    | Poll(empty: set<nat>)

  function Live(w: World, t: nat): nat { if t in w.processes then w.processes[t] else 0 }

  /** When a step can happen. Processes come and go as they like, but none comes from nothing. That a
      reservation is there to be dropped is no restriction: `ReservationsCanBeDropped`. */
  predicate Enabled(w: World, step: Step) {
    match step
    case Enter(t) =>
      t !in w.calls && t !in w.processes && GateOpen(w.registry, w.disconnected) && w.registry.inFlight < U64_MAX
    case Spawn(t) => t in w.calls && w.calls[t].Holding?
    case Contain(t) => t in w.calls && w.calls[t].Spawned?
    case Fail(t) => t in w.calls && (w.calls[t].Holding? || w.calls[t].Spawned?)
    case Leave(t) => t in w.calls && w.calls[t].Failing? && w.registry.inFlight > 0
    case Refuse(t) => t in w.calls && w.calls[t].Contained?
    case LeaveRefused(t, seen) =>
      t in w.calls && w.calls[t].Refused? && w.registry.inFlight > 0 && (seen ==> Live(w, t) == 0)
    case Enlist(t) =>
      t in w.calls && w.calls[t].Contained? && GateOpen(w.registry, w.disconnected) && w.registry.nextId < U64_MAX
    case DropLaunch(t) => t in w.calls && w.calls[t].Listed? && w.registry.inFlight > 0
    case Settle(t) => t in w.calls && w.calls[t].Supervising? && Live(w, t) == 0
    case Retain(t) => t in w.calls && w.calls[t].Supervising?
    case Fork(t) => Live(w, t) > 0
    case Exited(t) => Live(w, t) > 0
    case Poll(empty) => forall id :: id in empty ==> id in w.registry.jobs && Live(w, w.registry.jobs[id]) == 0
    case _ => true
  }

  function Moved(w: World, t: nat, s: Stage): World { w.(calls := w.calls[t := s]) }

  function Apply(w: World, step: Step): World
    requires Enabled(w, step)
  {
    match step
    case Enter(t) => Moved(w, t, Holding).(registry := Reserved(w.registry))
    case Spawn(t) => Moved(w, t, Spawned).(processes := w.processes[t := 1])
    case Contain(t) => Moved(w, t, Contained)
    case Fail(t) => Moved(w, t, Failing)
    case Leave(t) => Moved(w, t, Finished(true, Early)).(registry := Released(w.registry))
    case Refuse(t) => Moved(w, t, Refused)
    case LeaveRefused(t, seen) => Moved(w, t, Finished(seen, Refusal)).(registry := Released(w.registry))
    case Enlist(t) => Moved(w, t, Listed(w.registry.nextId + 1)).(registry := Registered(w.registry, t))
    case DropLaunch(t) => Moved(w, t, Supervising(w.calls[t].id)).(registry := Released(w.registry))
    case Settle(t) => Moved(w, t, Finished(true, Supervised)).(registry := Removed(w.registry, {w.calls[t].id}))
    case Retain(t) => Moved(w, t, Finished(false, Supervised))
    case Fork(t) => w.(processes := w.processes[t := w.processes[t] + 1])
    case Exited(t) => w.(processes := w.processes[t := w.processes[t] - 1])
    case Disconnect => w.(disconnected := true)
    case Block => w.(registry := w.registry.(launchAllowed := false))
    case Allow => if w.disconnected then w else w.(registry := w.registry.(launchAllowed := true))
    case Poll(empty) => w.(registry := Removed(w.registry, empty))
  }

  // ---- The invariant ----

  function Holders(calls: map<nat, Stage>): set<nat> { set t | t in calls && HoldsReservation(calls[t]) }

  /** The call gave up in setup; nothing made sure that its child was gone. */
  predicate Stray(w: World, t: nat) {
    t in w.calls && w.calls[t].Finished? && (w.calls[t].exit.Early? || (w.calls[t].exit.Refusal? && !w.calls[t].clean))
  }

  ghost predicate Tabled(jobs: map<nat, nat>, t: nat) { exists id :: id in jobs && jobs[id] == t }

  /** The call still holds its reservation, or its job is in the table. */
  ghost predicate Watched(w: World, t: nat) {
    t in w.calls && (HoldsReservation(w.calls[t]) || Tabled(w.registry.jobs, t))
  }

  /** A call's own registration, while it has one, names its job; ids are never used again. */
  predicate OwnEntry(w: World, t: nat)
    requires t in w.calls && Enlisted(w.calls[t])
  {
    && w.calls[t].id <= w.registry.nextId
    && (w.calls[t].id in w.registry.jobs ==> w.registry.jobs[w.calls[t].id] == t)
    && (Live(w, t) > 0 ==> w.calls[t].id in w.registry.jobs)
  }

  ghost predicate CallOk(w: World, t: nat) {
    if t !in w.calls then
      t !in w.processes
    else
      && (Live(w, t) > 0 ==> Watched(w, t) || Stray(w, t))
      && (Enlisted(w.calls[t]) ==> OwnEntry(w, t))
      && (w.calls[t].Finished? && w.calls[t].clean && !w.calls[t].exit.Early? ==> Live(w, t) == 0)
      && (w.calls[t].Holding? ==> Live(w, t) == 0)
  }

  ghost predicate Inv(w: World) {
    && w.registry.inFlight == |Holders(w.calls)|
    && (forall id :: id in w.registry.jobs ==> id <= w.registry.nextId)
    && (forall t :: CallOk(w, t))
  }

  function One(b: bool): nat { if b then 1 else 0 }

  lemma HoldersCounted(calls: map<nat, Stage>, t: nat, s: Stage)
    ensures |Holders(calls[t := s])| + One(t in calls && HoldsReservation(calls[t]))
      == |Holders(calls)| + One(HoldsReservation(s))
  {
    var rest := Holders(calls) - {t};
    assert Holders(calls) == if t in calls && HoldsReservation(calls[t]) then rest + {t} else rest;
    assert Holders(calls[t := s]) == if HoldsReservation(s) then rest + {t} else rest;
  }

  /** A step of call `t` that leaves the table alone concerns no other call. */
  lemma OneCallMoves(w: World, w': World, t: nat, s: Stage)
    requires Inv(w) && w'.calls == w.calls[t := s]
    requires w'.processes == w.processes || (t in w'.processes && w'.processes == w.processes[t := w'.processes[t]])
    requires w'.registry == w.registry.(inFlight := w'.registry.inFlight)
    requires w'.registry.inFlight + One(t in w.calls && HoldsReservation(w.calls[t]))
      == w.registry.inFlight + One(HoldsReservation(s))
    requires CallOk(w', t)
    ensures Inv(w')
  {
    HoldersCounted(w.calls, t, s);
    forall u ensures CallOk(w', u) {
      assert CallOk(w, u);
    }
  }

  lemma EnlistKeeps(w: World, t: nat)
    requires Inv(w) && Enabled(w, Enlist(t))
    ensures Inv(Apply(w, Enlist(t)))
  {
    var w' := Apply(w, Enlist(t));
    HoldersCounted(w.calls, t, w'.calls[t]);
    forall u ensures CallOk(w', u) {
      assert CallOk(w, u);
      if Tabled(w.registry.jobs, u) {
        var id :| id in w.registry.jobs && w.registry.jobs[id] == u;
        assert w'.registry.jobs[id] == u;
      }
    }
  }

  /** The counter never runs below the reservations held: a call that holds one can always drop it. */
  lemma ReservationsCanBeDropped(w: World, t: nat)
    requires Inv(w) && t in w.calls && HoldsReservation(w.calls[t])
    ensures w.registry.inFlight > 0
    ensures w.calls[t].Failing? ==> Enabled(w, Leave(t))
    ensures w.calls[t].Refused? ==> Enabled(w, LeaveRefused(t, false))
    ensures w.calls[t].Listed? ==> Enabled(w, DropLaunch(t))
  {
    assert t in Holders(w.calls);
  }

  /** Taking entries out of the table loses sight of no live process, if each entry's job was seen empty. */
  lemma RemovalKeeps(w: World, ids: set<nat>)
    requires Inv(w)
    requires forall id :: id in ids && id in w.registry.jobs ==> Live(w, w.registry.jobs[id]) == 0
    ensures Inv(w.(registry := Removed(w.registry, ids)))
  {
    var w' := w.(registry := Removed(w.registry, ids));
    forall t ensures CallOk(w', t) {
      assert CallOk(w, t);
      if Tabled(w.registry.jobs, t) && Live(w, t) > 0 {
        var id :| id in w.registry.jobs && w.registry.jobs[id] == t;
        assert w'.registry.jobs[id] == t;
      }
    }
  }

  lemma ProcessesComeAndGo(w: World, t: nat, n: nat)
    requires Inv(w) && Live(w, t) > 0
    ensures Inv(w.(processes := w.processes[t := n]))
  {
    var w' := w.(processes := w.processes[t := n]);
    forall u ensures CallOk(w', u) {
      assert CallOk(w, u);
    }
  }

  lemma GateMoves(w: World, allowed: bool, disconnected: bool)
    requires Inv(w)
    ensures Inv(w.(registry := w.registry.(launchAllowed := allowed), disconnected := disconnected))
  {
    var w' := w.(registry := w.registry.(launchAllowed := allowed), disconnected := disconnected);
    forall t ensures CallOk(w', t) {
      assert CallOk(w, t);
    }
  }

  /** A step of one call that does not touch the table. */
  lemma CallStepKeeps(w: World, step: Step)
    requires Inv(w) && Enabled(w, step)
    requires step.Enter? || step.Spawn? || step.Contain? || step.Fail? || step.Leave? || step.Refuse?
          || step.LeaveRefused? || step.DropLaunch? || step.Retain?
    ensures Inv(Apply(w, step))
  {
    var w' := Apply(w, step);
    assert CallOk(w, step.t);
    OneCallMoves(w, w', step.t, w'.calls[step.t]);
  }

  /** Every step of every call, process and supervisor keeps the invariant. */
  lemma StepKeeps(w: World, step: Step)
    requires Inv(w) && Enabled(w, step)
    ensures Inv(Apply(w, step))
  {
    match step
    case Enlist(t) => EnlistKeeps(w, t);
    case Settle(t) =>
      assert CallOk(w, t);
      var w1 := Moved(w, t, Finished(true, Supervised));
      OneCallMoves(w, w1, t, Finished(true, Supervised));
      RemovalKeeps(w1, {w.calls[t].id});
    case Poll(empty) => RemovalKeeps(w, empty);
    case Fork(t) => ProcessesComeAndGo(w, t, w.processes[t] + 1);
    case Exited(t) => ProcessesComeAndGo(w, t, w.processes[t] - 1);
    case Disconnect => GateMoves(w, w.registry.launchAllowed, true);
    case Block => GateMoves(w, false, w.disconnected);
    case Allow => GateMoves(w, true, w.disconnected);
    case _ => CallStepKeeps(w, step);
  }

  // ---- Runs ----

  predicate Taken(ws: seq<World>, steps: seq<Step>, i: nat)
    requires i < |steps| && |ws| == |steps| + 1
  {
    Enabled(ws[i], steps[i]) && ws[i + 1] == Apply(ws[i], steps[i])
  }

  ghost predicate Run(ws: seq<World>, steps: seq<Step>) {
    |ws| == |steps| + 1 && ws[0] == START && forall i :: 0 <= i < |steps| ==> Taken(ws, steps, i)
  }

  lemma {:induction false} EveryStateIsOk(ws: seq<World>, steps: seq<Step>, k: nat)
    requires Run(ws, steps) && k < |ws|
    ensures Inv(ws[k])
  {
    if k == 0 {
      assert Holders(START.calls) == {};
    } else {
      EveryStateIsOk(ws, steps, k - 1);
      assert Taken(ws, steps, k - 1);
      StepKeeps(ws[k - 1], steps[k - 1]);
    }
  }

  /** Launches are blocked and none is under way; only these calls can have live processes. */
  ghost predicate Closed(w: World, left: set<nat>) {
    && !w.registry.launchAllowed
    && Holders(w.calls) == {}
    && forall t :: Live(w, t) > 0 ==> t in left
  }

  /** A poll that finds the registry idle accounts for every process but the strays'. */
  lemma IdleAccountsForAll(w: World)
    requires Inv(w) && Idle(w.registry)
    ensures Holders(w.calls) == {}
    ensures forall t :: Live(w, t) > 0 ==> Stray(w, t)
  {
    forall t | Live(w, t) > 0 ensures Stray(w, t) {
      assert CallOk(w, t);
      assert t !in Holders(w.calls);
    }
  }

  lemma ClosedStays(w: World, step: Step, left: set<nat>)
    requires Inv(w) && Enabled(w, step) && Closed(w, left)
    requires step.Allow? ==> w.disconnected
    ensures Closed(Apply(w, step), left)
  {
    if step.Retain? || step.Settle? {
      assert Holders(Apply(w, step).calls) == {};
    } else if step.Fork? || step.Exited? {
      assert step.t in left;
    } else {
      assert forall t :: t in w.calls && HoldsReservation(w.calls[t]) ==> t in Holders(w.calls);
    }
  }

  /** A revocation: launches were blocked at step `b`, a poll at step `i` found the registry idle, and
      nobody allowed launches since. */
  ghost predicate Revoked(ws: seq<World>, steps: seq<Step>, b: nat, i: nat, k: nat)
    requires Run(ws, steps)
  {
    && b < i < k < |ws|
    && steps[b].Block?
    && steps[i].Poll? && Idle(ws[i + 1].registry)
    && forall j :: b < j < k && steps[j].Allow? ==> ws[j].disconnected
  }

  lemma {:induction false} BlockedUntilAllowed(ws: seq<World>, steps: seq<Step>, b: nat, k: nat)
    requires Run(ws, steps) && b < k < |ws| && steps[b].Block?
    requires forall j :: b < j < k && steps[j].Allow? ==> ws[j].disconnected
    ensures !ws[k].registry.launchAllowed
  {
    assert Taken(ws, steps, k - 1);
    if b < k - 1 {
      BlockedUntilAllowed(ws, steps, b, k - 1);
    }
  }

  /** Jobs in the table after launches were blocked were there at the block, which terminates them:
      no registration slips in behind it. */
  lemma {:induction false} EveryJobWasTerminated(ws: seq<World>, steps: seq<Step>, b: nat, k: nat, id: nat)
    requires Run(ws, steps) && b < k < |ws| && steps[b].Block?
    requires forall j :: b < j < k && steps[j].Allow? ==> ws[j].disconnected
    requires id in ws[k].registry.jobs
    ensures id in ws[b].registry.jobs && ws[b].registry.jobs[id] == ws[k].registry.jobs[id]
  {
    assert Taken(ws, steps, k - 1);
    if b < k - 1 {
      BlockedUntilAllowed(ws, steps, b, k - 1);
      JobsOnlyGo(ws[k - 1], steps[k - 1], id);
      EveryJobWasTerminated(ws, steps, b, k - 1, id);
    }
  }

  lemma JobsOnlyGo(w: World, step: Step, id: nat)
    requires Enabled(w, step) && !w.registry.launchAllowed && id in Apply(w, step).registry.jobs
    ensures id in w.registry.jobs && w.registry.jobs[id] == Apply(w, step).registry.jobs[id]
  {
  }

  function LiveStrays(w: World): set<nat> { set t | t in w.calls && Stray(w, t) && Live(w, t) > 0 }

  /** The fence. After a revocation, and until launches are allowed again, no call is between its
      reservation and its registration, so none can start a worker, and every process still alive
      belongs to a call that had given up in setup before the poll. */
  lemma {:induction false} RevokeFence(ws: seq<World>, steps: seq<Step>, b: nat, i: nat, k: nat)
    requires Run(ws, steps) && Revoked(ws, steps, b, i, k)
    ensures Closed(ws[k], LiveStrays(ws[i + 1]))
  {
    EveryStateIsOk(ws, steps, k - 1);
    assert Taken(ws, steps, k - 1);
    if k == i + 1 {
      EveryStateIsOk(ws, steps, k);
      IdleAccountsForAll(ws[k]);
      BlockedUntilAllowed(ws, steps, b, k);
    } else {
      RevokeFence(ws, steps, b, i, k - 1);
      ClosedStays(ws[k - 1], steps[k - 1], LiveStrays(ws[i + 1]));
    }
  }

  /** The call leaves setup while its child is alive: the wait for it timed out. */
  predicate LeavesAlive(w: World, step: Step, t: nat) {
    (step == Leave(t) || (step.LeaveRefused? && step.t == t)) && Live(w, t) > 0
  }

  ghost predicate LeftAlive(ws: seq<World>, steps: seq<Step>, k: nat, t: nat)
    requires k < |ws| == |steps| + 1
  {
    exists j :: 0 <= j < k && LeavesAlive(ws[j], steps[j], t)
  }

  ghost predicate Survives(ws: seq<World>, steps: seq<Step>, k: nat, t: nat)
    requires k < |ws| == |steps| + 1
  {
    LeftAlive(ws, steps, k, t) && Live(ws[k], t) > 0
  }

  /** Every child that was alive as its call left setup has died. */
  ghost predicate NoSurvivors(ws: seq<World>, steps: seq<Step>, k: nat)
    requires k < |ws| == |steps| + 1
  {
    forall t :: !Survives(ws, steps, k, t)
  }

  lemma {:induction false} LiveStraysLeftAlive(ws: seq<World>, steps: seq<Step>, k: nat, t: nat)
    requires Run(ws, steps) && k < |ws| && t in LiveStrays(ws[k])
    ensures LeftAlive(ws, steps, k, t)
  {
    if k > 0 {
      assert Taken(ws, steps, k - 1);
      EveryStateIsOk(ws, steps, k - 1);
      assert CallOk(ws[k - 1], t);
      if !LeavesAlive(ws[k - 1], steps[k - 1], t) {
        EarlierStray(ws[k - 1], steps[k - 1], t);
        LiveStraysLeftAlive(ws, steps, k - 1, t);
      }
    }
  }

  /** A live stray that did not just leave was one before. */
  lemma EarlierStray(w: World, step: Step, t: nat)
    requires CallOk(w, t) && Enabled(w, step) && !LeavesAlive(w, step, t) && t in LiveStrays(Apply(w, step))
    ensures t in LiveStrays(w)
  {
  }

  lemma {:induction false} LeftStaysStray(ws: seq<World>, steps: seq<Step>, j: nat, k: nat, t: nat)
    requires Run(ws, steps) && j < k < |ws| && LeavesAlive(ws[j], steps[j], t)
    ensures Stray(ws[k], t)
  {
    assert Taken(ws, steps, k - 1);
    if j < k - 1 {
      LeftStaysStray(ws, steps, j, k - 1, t);
      StrayStays(ws[k - 1], steps[k - 1], t);
    }
  }

  lemma StrayStays(w: World, step: Step, t: nat)
    requires Enabled(w, step) && Stray(w, t)
    ensures Stray(Apply(w, step), t)
  {
  }

  /** A live stray is exactly a live process of a call whose wait on leaving setup timed out. */
  lemma LiveStrayIff(ws: seq<World>, steps: seq<Step>, k: nat, t: nat)
    requires Run(ws, steps) && k < |ws|
    ensures t in LiveStrays(ws[k]) <==> Survives(ws, steps, k, t)
  {
    if t in LiveStrays(ws[k]) {
      LiveStraysLeftAlive(ws, steps, k, t);
    }
    if LeftAlive(ws, steps, k, t) {
      var j :| 0 <= j < k && LeavesAlive(ws[j], steps[j], t);
      LeftStaysStray(ws, steps, j, k, t);
    }
  }

  /** Exactly when the fence leaves nothing alive: when every child that was alive as its call left setup
      has died by the poll. */
  lemma FenceIsCompleteIff(ws: seq<World>, steps: seq<Step>, b: nat, i: nat, k: nat)
    requires Run(ws, steps) && Revoked(ws, steps, b, i, k)
    ensures (forall j, t :: i < j <= k ==> Live(ws[j], t) == 0) <==> NoSurvivors(ws, steps, i + 1)
  {
    forall j | i < j <= k ensures Closed(ws[j], LiveStrays(ws[i + 1])) {
      RevokeFence(ws, steps, b, i, j);
    }
    var m := i + 1;
    forall t ensures t in LiveStrays(ws[m]) <==> Survives(ws, steps, m, t) {
      LiveStrayIff(ws, steps, m, t);
    }
  }

  /** The fence as it is meant: if no wait on leaving setup timed out before the poll, then from the poll
      until launches are allowed again no process is alive, and no call can begin, start a child or
      register one. */
  lemma CompleteFence(ws: seq<World>, steps: seq<Step>, b: nat, i: nat, k: nat, t: nat)
    requires Run(ws, steps) && Revoked(ws, steps, b, i, k)
    requires forall j, u :: 0 <= j <= i ==> !LeavesAlive(ws[j], steps[j], u)
    ensures Live(ws[k], t) == 0
    ensures !Enabled(ws[k], Enter(t)) && !Enabled(ws[k], Spawn(t)) && !Enabled(ws[k], Enlist(t))
  {
    FenceIsCompleteIff(ws, steps, b, i, k);
    RevokeFence(ws, steps, b, i, k);
    assert t !in Holders(ws[k].calls);
  }

  /** After a disconnect the fence holds for good, whatever is allowed later. */
  lemma {:induction false} DisconnectIsFinal(ws: seq<World>, steps: seq<Step>, d: nat, b: nat, i: nat, k: nat)
    requires Run(ws, steps) && d < b < i < k < |ws|
    requires steps[d].Disconnect? && steps[b].Block? && steps[i].Poll? && Idle(ws[i + 1].registry)
    ensures Closed(ws[k], LiveStrays(ws[i + 1]))
  {
    forall j | d < j < k ensures ws[j].disconnected {
      StaysDisconnected(ws, steps, d, j);
    }
    RevokeFence(ws, steps, b, i, k);
  }

  lemma {:induction false} StaysDisconnected(ws: seq<World>, steps: seq<Step>, d: nat, k: nat)
    requires Run(ws, steps) && d < k < |ws| && steps[d].Disconnect?
    ensures ws[k].disconnected
  {
    assert Taken(ws, steps, k - 1);
    if d < k - 1 {
      StaysDisconnected(ws, steps, d, k - 1);
    }
  }

  predicate Leads(w: World, step: Step, w': World) { Enabled(w, step) && Apply(w, step) == w' }

  const IDLE_GATE := Registry(0, true, 0, map[])
  const BUSY_GATE := Registry(0, true, 1, map[])
  const CHILD_FAILS := World(BUSY_GATE, false, map[0 := Failing], map[0 := 1])
  const CHILD_LEFT := World(IDLE_GATE.(launchAllowed := false), false, map[0 := Finished(true, Early)], map[0 := 1])

  lemma ChildIsSpawned()
    ensures Leads(START, Allow, START.(registry := IDLE_GATE))
    ensures Leads(START.(registry := IDLE_GATE), Enter(0), World(BUSY_GATE, false, map[0 := Holding], map[]))
    ensures Leads(World(BUSY_GATE, false, map[0 := Holding], map[]), Spawn(0), CHILD_FAILS.(calls := map[0 := Spawned]))
  {
    assert map[0 := Holding][0 := Spawned] == map[0 := Spawned];
  }

  lemma ChildIsLeft()
    ensures Leads(CHILD_FAILS.(calls := map[0 := Spawned]), Fail(0), CHILD_FAILS)
    ensures Leads(CHILD_FAILS, Block, CHILD_FAILS.(registry := BUSY_GATE.(launchAllowed := false)))
    ensures Leads(CHILD_FAILS.(registry := BUSY_GATE.(launchAllowed := false)), Leave(0), CHILD_LEFT)
    ensures Leads(CHILD_LEFT, Poll({}), CHILD_LEFT)
  {
    assert map[0 := Spawned][0 := Failing] == map[0 := Failing];
    assert map[0 := Failing][0 := CHILD_LEFT.calls[0]] == CHILD_LEFT.calls;
    assert CHILD_LEFT.registry.jobs - {} == CHILD_LEFT.registry.jobs;
  }

  /** The condition is needed: a child that outlives the wait may outlive the revocation too. */
  lemma FenceCanMissAChild() returns (ws: seq<World>, steps: seq<Step>)
    ensures Run(ws, steps) && Revoked(ws, steps, 4, 6, 7) && Live(ws[7], 0) == 1
  {
    steps := [Allow, Enter(0), Spawn(0), Fail(0), Block, Leave(0), Poll({})];
    ws := [START, START.(registry := IDLE_GATE), World(BUSY_GATE, false, map[0 := Holding], map[]),
      CHILD_FAILS.(calls := map[0 := Spawned]), CHILD_FAILS,
        CHILD_FAILS.(registry := BUSY_GATE.(launchAllowed := false)),
      CHILD_LEFT, CHILD_LEFT];
    ChildIsSpawned();
    ChildIsLeft();
    forall i | 0 <= i < 7 ensures Leads(ws[i], steps[i], ws[i + 1]) && Taken(ws, steps, i) {
    }
  }

  lemma FinishedStays(w: World, step: Step, t: nat)
    requires Enabled(w, step) && t in w.calls && w.calls[t].Finished? && Live(w, t) == 0
    ensures t in Apply(w, step).calls && Apply(w, step).calls[t] == w.calls[t] && Live(Apply(w, step), t) == 0
  {
  }

  /** A supervised call, or a refused one, that reports no process left is right, then and forever. */
  lemma {:induction false} CleanReportsAreRight(ws: seq<World>, steps: seq<Step>, i: nat, k: nat, t: nat)
    requires Run(ws, steps) && i <= k < |ws|
    requires t in ws[i].calls && ws[i].calls[t].Finished? && ws[i].calls[t].clean && !ws[i].calls[t].exit.Early?
    ensures t in ws[k].calls && ws[k].calls[t] == ws[i].calls[t] && Live(ws[k], t) == 0
  {
    if i == k {
      EveryStateIsOk(ws, steps, i);
      assert CallOk(ws[i], t);
    } else {
      CleanReportsAreRight(ws, steps, i, k - 1, t);
      assert Taken(ws, steps, k - 1);
      FinishedStays(ws[k - 1], steps[k - 1], t);
    }
  }
}
