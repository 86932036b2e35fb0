/** What lets a revocation finish: who is in the table, and when a poll finds the registry idle. */
module FenceLaws {
  import opened RevokeFence
  import opened WorkerRegistry

  /** A call that settles clean leaves no registration behind; one that retains its job leaves it to the
      polls. */
  lemma SettledCallIsOff(w: World, t: nat)
    requires Inv(w) && t in w.calls && w.calls[t].Supervising?
    ensures Enabled(w, Settle(t)) ==> w.calls[t].id !in Apply(w, Settle(t)).registry.jobs
    ensures Apply(w, Retain(t)).registry == w.registry
    ensures Live(w, t) > 0 ==> Tabled(Apply(w, Retain(t)).registry.jobs, t)
  {
    assert CallOk(w, t);
  }

  /** All jobs in the table that have no live process. */
  function EmptyJobs(w: World): set<nat> { set id | id in w.registry.jobs && Live(w, w.registry.jobs[id]) == 0 }

  /** A poll that removes the empty jobs finds the registry idle exactly if no call holds a reservation and
      no job in the table has a live process: a revocation is not kept waiting by anything else. */
  lemma PollFindsIdleIff(w: World)
    requires Inv(w)
    ensures Enabled(w, Poll(EmptyJobs(w)))
    ensures Idle(Apply(w, Poll(EmptyJobs(w))).registry) <==>
      && (forall t :: t in w.calls ==> !HoldsReservation(w.calls[t]))
      && (forall id :: id in w.registry.jobs ==> Live(w, w.registry.jobs[id]) == 0)
  {
    var left := w.registry.jobs - EmptyJobs(w);
    assert (forall t :: t in w.calls ==> !HoldsReservation(w.calls[t])) <==> Holders(w.calls) == {} by {
      assert forall t :: t in Holders(w.calls) <==> t in w.calls && HoldsReservation(w.calls[t]);
    }
    assert left == map[] <==> forall id :: id in w.registry.jobs ==> id in EmptyJobs(w) by {
      assert forall id :: id in left <==> id in w.registry.jobs && id !in EmptyJobs(w);
    }
  }
}
