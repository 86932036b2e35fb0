/** The registry of worker processes: a launch gate, a count of launches in flight and a table of
    jobs, all behind one mutex. Each method below is one region under that lock. */
module WorkerRegistry {
  import opened Options

  const U64_MAX: nat := 0xFFFF_FFFF_FFFF_FFFF

  /** `jobs` maps registration ids to job objects. */
  datatype Registry = Registry(nextId: nat, launchAllowed: bool, inFlight: nat, jobs: map<nat, nat>)

  predicate GateOpen(r: Registry, disconnected: bool) { r.launchAllowed && !disconnected }

  function Reserved(r: Registry): Registry { r.(inFlight := r.inFlight + 1) }

  function Released(r: Registry): Registry
    requires r.inFlight > 0
  {
    r.(inFlight := r.inFlight - 1)
  }

  function Registered(r: Registry, job: nat): Registry {
    r.(nextId := r.nextId + 1, jobs := r.jobs[r.nextId + 1 := job])
  }

  function Removed(r: Registry, ids: set<nat>): Registry { r.(jobs := r.jobs - ids) }

  predicate Idle(r: Registry) { r.jobs == map[] && r.inFlight == 0 }

  class ActiveWorkerRegistry {
    var nextId: nat
    var launchAllowed: bool
    var inFlight: nat
    var jobs: map<nat, nat>

    function View(): Registry
      reads this
    {
      Registry(nextId, launchAllowed, inFlight, jobs)
    }

    constructor ()
      ensures View() == Registry(0, false, 0, map[])
    {
      nextId, launchAllowed, inFlight, jobs := 0, false, 0, map[];
    }

    method ReserveLaunch(disconnected: bool, parentDisconnected: bool) returns (ok: bool)
      modifies this
      ensures ok <==> old(GateOpen(View(), disconnected || parentDisconnected) && inFlight < U64_MAX)
      ensures View() == if ok then Reserved(old(View())) else old(View())
    {
      if !launchAllowed || disconnected || parentDisconnected || inFlight >= U64_MAX {
        return false;
      }
      inFlight := inFlight + 1;
      return true;
    }

    /** Dropping a `LaunchReservation`. */
    method DropReservation()
      requires inFlight > 0
      modifies this
      ensures View() == Released(old(View()))
    {
      inFlight := inFlight - 1;
    }

    method Register(job: nat, disconnected: bool, parentDisconnected: bool) returns (id: Option<nat>)
      modifies this
      ensures id.Some? <==> old(GateOpen(View(), disconnected || parentDisconnected) && nextId < U64_MAX)
      ensures id.Some? ==> id.value == old(nextId) + 1 && View() == Registered(old(View()), job)
      ensures id.None? ==> View() == old(View())
    {
      if !launchAllowed || disconnected || parentDisconnected || nextId >= U64_MAX {
        return None;
      }
      nextId := nextId + 1;
      jobs := jobs[nextId := job];
      return Some(nextId);
    }

    /** Dropping an `ActiveRegistration` that is not retained. */
    method DropRegistration(id: nat)
      modifies this
      ensures View() == Removed(old(View()), {id})
    {
      jobs := jobs - {id};
    }

    method AllowLaunches(disconnected: bool) returns (ok: bool)
      modifies this
      ensures ok == !disconnected
      ensures View() == old(View()).(launchAllowed := ok || old(launchAllowed))
    {
      if disconnected {
        return false;
      }
      launchAllowed := true;
      return true;
    }

    /** The locked part of `block_launches_and_terminate_all`, and the jobs it then terminates. */
    method BlockLaunches() returns (doomed: set<nat>)
      modifies this
      ensures View() == old(View()).(launchAllowed := false) && doomed == jobs.Values
    {
      launchAllowed := false;
      doomed := jobs.Values;
    }

    /** One poll of `wait_for_zero`; `accounting` is what each job reports, if it can be asked. */
    method Poll(accounting: nat -> Option<nat>) returns (idle: bool)
      modifies this
      ensures View() == Removed(old(View()), set id | id in old(jobs) && accounting(old(jobs)[id]) == Some(0))
      ensures idle == Idle(View())
    {
      var completed: set<nat> := {};
      var todo := jobs.Keys;
      while todo != {}
        invariant todo <= jobs.Keys && jobs == old(jobs) && View() == old(View())
        invariant completed == set id | id in jobs && id !in todo && accounting(jobs[id]) == Some(0)
        decreases |todo|
      {
        var id :| id in todo;
        if accounting(jobs[id]) == Some(0) {
          completed := completed + {id};
        }
        todo := todo - {id};
      }
      jobs := jobs - completed;
      idle := jobs == map[] && inFlight == 0;
    }
  }
}
