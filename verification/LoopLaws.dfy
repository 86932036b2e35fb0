/** The life of work beside the loop, over every run: the ticket of the request that began it waits until
    its own completion arrives, and that completion closes this ticket and no other. */
module LoopLaws {
  import opened Options
  import opened Paths
  import opened Status
  import opened Lanes
  import opened Ledger
  import opened Stdio
  import opened LaneTheorems
  import opened StdioTheorems
  import LaneLaws

  predicate Completes(ev: Event, operation: string) {
    (ev.WorkerDone? || ev.RecoveryDone?) && ev.operation == operation
  }

  /** The work a dispatched request asks for. */
  function AskedFor(outcome: Dispatched): Option<Work> {
    match outcome
    case Replied => None
    case Launched(launch) => Some(Worker(launch))
    case RecoveryLaunched(plan) => Some(RecoveryTask(plan))
  }

  /** A request takes one ticket: it waits with the work that was started, or is closed at once. */
  predicate TicketTaken(l: Loop, l': Loop, begun: Option<Work>) {
    match begun
    case Some(work) =>
      && l'.running == l.running[work.Operation() := work] && l'.book == IssueOpen(l.book, work.Operation())
      && l'.dropped == l.dropped
    case None =>
      && l'.running == l.running && l'.book == IssueClosed(l.book)
      && (!l.disconnected ==> l'.dropped == l.dropped)
  }

  /** Work is begun exactly if dispatch asked for it, its thread started and the connection is there. */
  lemma WorkBegunIff(l: Loop, d: Daemon, outcome: Dispatched, shutdown: bool, started: bool, failure: FailureClass)
    ensures TicketTaken(l, Settled(l, d, outcome, shutdown, started, failure),
      if started && !l.disconnected then AskedFor(outcome) else None)
  {
  }

  lemma AskedForIsNew(l: Loop, r: Request, attribution: Option<string>)
    requires LoopOk(l) && GoodAttribution(l.daemon, r, attribution)
    ensures var asked := AskedFor(Dispatch(l.daemon, r, attribution).1);
      asked.Some? ==> asked.value.Operation() !in l.running
  {
    DispatchKeeps(l.daemon, l.running, r, attribution);
  }

  /** A request either begins new work under a new ticket or leaves the running work alone. */
  lemma ReceiveTakesTicket(l: Loop, ev: Event) returns (begun: Option<Work>)
    requires LoopOk(l) && Enabled(l, ev) && ev.Receive?
    ensures TicketTaken(l, Next(l, ev), begun) && (begun.Some? ==> begun.value.Operation() !in l.running)
  {
    var (d, outcome) := Dispatch(l.daemon, ev.request, ev.attribution);
    begun := if ev.started && !l.disconnected then AskedFor(outcome) else None;
    AskedForIsNew(l, ev.request, ev.attribution);
    WorkBegunIff(l, d, outcome, ev.request.Shutdown?, ev.started, ev.failure);
  }

  /** The work goes on under the same ticket. */
  predicate Continues(l: Loop, l': Loop, operation: string)
    requires operation in l.running && operation in l.book.open
  {
    && operation in l'.running && l'.running[operation] == l.running[operation]
    && operation in l'.book.open && l'.book.open[operation] == l.book.open[operation]
  }

  /** The work is over and its ticket closed: answered if the connection is there, else dropped. */
  predicate IsOver(l: Loop, l': Loop, operation: string)
    requires operation in l.book.open
  {
    var ticket := l.book.open[operation];
    && operation !in l'.running && operation !in l'.book.open
    && l'.book.closed == l.book.closed + multiset{ticket}
    && l'.dropped == if l.terminal || l.disconnected then l.dropped + multiset{ticket} else l.dropped
  }

  lemma FinishLaw(l: Loop, operation: string, done: string)
    requires operation in l.running && operation in l.book.open && done in l.book.open
    ensures var l' := Finish(l, done);
      if operation == done then IsOver(l, l', operation) else Continues(l, l', operation)
  {
  }

  lemma ReceiveStep(l: Loop, ev: Event, operation: string)
    requires LoopOk(l) && Enabled(l, ev) && ev.Receive? && operation in l.running && operation in l.book.open
    ensures Continues(l, Next(l, ev), operation)
  {
    var begun := ReceiveTakesTicket(l, ev);
  }

  lemma WorkerDoneStep(l: Loop, done: string, st: Settlement, operation: string)
    requires operation in l.running && operation in l.book.open
    requires done in l.running && l.running[done].Worker? && done in l.book.open
    ensures var l' := FinishedWorker(l, done, st);
      if operation == done then IsOver(l, l', operation) else Continues(l, l', operation)
  {
    var l' := FinishedWorker(l, done, st);
    FinishLaw(l.(daemon := l'.daemon, attempts := l'.attempts), operation, done);
  }

  /** Work ends at its own completion and at no other event. */
  lemma WorkStep(l: Loop, ev: Event, operation: string)
    requires LoopOk(l) && Enabled(l, ev) && operation in l.running && operation in l.book.open
    ensures if Completes(ev, operation) then IsOver(l, Next(l, ev), operation) else Continues(l, Next(l, ev), operation)
  {
    match ev
    case Receive(_, _, _, _) => ReceiveStep(l, ev, operation);
    case WorkerDone(done, st) => WorkerDoneStep(l, done, st, operation);
    case RecoveryDone(done, result) =>
      FinishLaw(l.(daemon := SettleRecovery(l.daemon, l.running[done].plan, result)), operation, done);
    case _ =>
  }

  /** Work begins only with a request, which leaves its own ticket waiting. */
  lemma WorkBegins(l: Loop, ev: Event, operation: string)
    requires LoopOk(l) && Enabled(l, ev) && operation !in l.running && operation in Next(l, ev).running
    ensures ev.Receive? && operation in Next(l, ev).book.open
    ensures Next(l, ev).book.open[operation] == l.book.issued
  {
    if ev.Receive? {
      var begun := ReceiveTakesTicket(l, ev);
    }
  }

  /** Event `i` begins the work of this operation. */
  ghost predicate BeginsAt(ls: seq<Loop>, evs: seq<Event>, i: nat, operation: string)
    requires i < |evs| && |ls| == |evs| + 1
  {
    operation !in ls[i].running && operation in ls[i + 1].running
  }

  /** Before event `k` the work begun at `i` runs and the ticket of its request waits. */
  ghost predicate RunsSince(ls: seq<Loop>, evs: seq<Event>, i: nat, k: nat, operation: string)
    requires i < |evs| && k < |ls| == |evs| + 1
  {
    && operation in ls[k].running && operation in ls[i + 1].running
    && ls[k].running[operation] == ls[i + 1].running[operation]
    && operation in ls[k].book.open && ls[k].book.open[operation] == ls[i].book.issued
  }

  lemma RunBegins(ls: seq<Loop>, evs: seq<Event>, i: nat, operation: string)
    requires Trace(ls, evs) && LoopOk(ls[0]) && i < |evs| && BeginsAt(ls, evs, i, operation)
    ensures RunsSince(ls, evs, i, i + 1, operation)
  {
    EveryRunIsOk(ls, evs, i);
    assert Steps(ls, evs, i);
    WorkBegins(ls[i], evs[i], operation);
  }

  lemma RunStep(ls: seq<Loop>, evs: seq<Event>, k: nat, operation: string)
    requires Trace(ls, evs) && LoopOk(ls[0]) && k < |evs| && operation in ls[k].running && operation in ls[k].book.open
    ensures if Completes(evs[k], operation) then IsOver(ls[k], ls[k + 1], operation)
            else Continues(ls[k], ls[k + 1], operation)
  {
    EveryRunIsOk(ls, evs, k);
    assert Steps(ls, evs, k);
    WorkStep(ls[k], evs[k], operation);
  }

  /** Until its completion arrives, work runs on and the request that began it stays pending. */
  lemma {:induction false} WorkRunsOn(ls: seq<Loop>, evs: seq<Event>, i: nat, k: nat, operation: string)
    requires Trace(ls, evs) && LoopOk(ls[0]) && i < k < |ls| && BeginsAt(ls, evs, i, operation)
    requires forall j :: i < j < k ==> !Completes(evs[j], operation)
    ensures RunsSince(ls, evs, i, k, operation)
  {
    if k == i + 1 {
      RunBegins(ls, evs, i, operation);
    } else {
      WorkRunsOn(ls, evs, i, k - 1, operation);
      RunStep(ls, evs, k - 1, operation);
    }
  }

  /** Its first completion closes the ticket of the request that began it, and that ticket only. */
  lemma CompletionAnswersItsRequest(ls: seq<Loop>, evs: seq<Event>, i: nat, k: nat, operation: string)
    requires Trace(ls, evs) && LoopOk(ls[0]) && i < k < |evs| && BeginsAt(ls, evs, i, operation)
    requires Completes(evs[k], operation) && forall j :: i < j < k ==> !Completes(evs[j], operation)
    ensures ls[k + 1].book.closed == ls[k].book.closed + multiset{ls[i].book.issued}
    ensures !ls[k].terminal && !ls[k].disconnected ==> ls[k + 1].dropped == ls[k].dropped
  {
    WorkRunsOn(ls, evs, i, k, operation);
    RunStep(ls, evs, k, operation);
  }

  lemma SettledLaneOnly(d: Daemon, key: string, operation: string, st: Settlement)
    requires Holds(d, key, operation)
    ensures var d' := SettleLaunch(d, key, operation, st);
      d'.repositories == d.repositories && LaneLaws.LeavesRest(d, d', key, operation)
  {
  }

  lemma FinishLeavesDaemon(l: Loop, operation: string, st: Settlement)
    requires operation in l.running && l.running[operation].Worker?
    ensures FinishedWorker(l, operation, st).daemon
         == SettleLaunch(l.daemon, l.running[operation].launch.laneKey, operation, st)
  {
  }

  /** A settled worker changes its own lane and forgets its own id; sessions and other lanes stay. */
  lemma CompletedWorkerSettles(l: Loop, operation: string, st: Settlement)
    requires LoopOk(l) && Enabled(l, WorkerDone(operation, st))
    ensures var d' := Next(l, WorkerDone(operation, st)).daemon;
      && d'.repositories == l.daemon.repositories
      && LaneLaws.LeavesRest(l.daemon, d', l.running[operation].launch.laneKey, operation)
  {
    assert WorkOk(l.daemon, l.running[operation], operation);
    SettledLaneOnly(l.daemon, l.running[operation].launch.laneKey, operation, st);
    FinishLeavesDaemon(l, operation, st);
  }
}
