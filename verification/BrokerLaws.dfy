/** The life of one credential call over every run: exactly when it is taken, which event ends it and what
    reply that event sends. */
module BrokerLaws {
  import opened BoundedQueue
  import opened Broker
  import opened Collections
  import opened Ledger
  import opened Options

  // ---- Taking a call ----

  /** A call waits under its id, with the next ticket, exactly if its operation is under way, its id is new
      and has 1 to 128 bytes, its deadline has not passed, fewer than 64 calls wait and the loop still runs;
      otherwise it is told at once that credentials are unavailable. */
  lemma OfferLaw(b: Broker, call: Call, now: nat, terminal: bool)
    requires Ok(b)
    ensures var b' := Next(b, Offer(call, now, terminal));
      && b'.book.issued == b.book.issued + 1 && b'.retired == b.retired && b'.operations == b.operations
      && if && !terminal && call.operationId in b.operations && now < call.deadline && |b.waiting| < 64
            && call.requestId !in b.waiting && call.requestId != "" && Utf8Length(call.requestId) <= 128 then
           && b'.waiting == b.waiting[call.requestId := Waiting(call.operationId, call.deadline)]
           && b'.book.open == b.book.open[call.requestId := b.book.issued] && b'.replies == b.replies
         else
           && b'.waiting == b.waiting && b'.book.open == b.book.open
           && b'.replies == b.replies[b.book.issued := Unavailable]
  {
    assert |b.waiting| == |b.waiting.Keys| && |b.book.open| == |b.book.open.Keys|;
  }

  // ---- Which reply an event sends ----

  /** What event `e` sends to the call waiting under `id`, if anything. */
  function Sends(b: Broker, e: Event, id: string): Option<Reply>
    requires id in b.waiting
  {
    match e
    case Respond(Response(to, result, error), now) =>
      if to != id || id in b.retired then None
      else if result.Some? && error.None? && now < b.waiting[id].deadline then Some(Answered(result.value))
      else if result.Some? && error.None? then Some(TimedOut)
      else if error.Some? && result.None? then Some(Refused(error.value))
      else Some(Invalid)
    case CancelNote(to) => if to == id then Some(Cancelled) else None
    case Expire(now, _) => if now >= b.waiting[id].deadline then Some(TimedOut) else None
    case End(operationId, _) => if b.waiting[id].operationId == operationId then Some(Unavailable) else None
    case Shutdown(_) => Some(Unavailable)
    case _ => None
  }

  predicate StillWaits(b: Broker, b': Broker, id: string)
    requires id in b.waiting && id in b.book.open
  {
    && id in b'.waiting && id in b'.book.open
    && b'.waiting[id] == b.waiting[id] && b'.book.open[id] == b.book.open[id]
  }

  predicate RepliedWith(b: Broker, b': Broker, id: string, reply: Reply)
    requires id in b.book.open
  {
    && id !in b'.waiting && id !in b'.book.open
    && b.book.open[id] in b'.replies && b'.replies[b.book.open[id]] == reply
  }

  predicate Decided(b: Broker, b': Broker, id: string, done: bool, reply: Reply)
    requires id in b.waiting && id in b.book.open
  {
    if done then RepliedWith(b, b', id, reply) else StillWaits(b, b', id)
  }

  lemma OneTakenOff(b: Broker, b': Broker, last: string, reply: Reply, retire: bool, id: string, done: bool)
    requires id in b.waiting && id in b.book.open && Decided(b, b', id, done, reply)
    ensures var b'' := if last in b'.book.open then TakenOff(b', last, reply, retire) else b';
      Decided(b, b'', id, done || last == id, reply)
  {
  }

  lemma {:induction false} BulkCall(b: Broker, ids: seq<string>, reply: Reply, retire: bool, id: string)
    requires id in b.waiting && id in b.book.open
    ensures Decided(b, ClosedAll(b, ids, reply, retire), id, id in ids, reply)
  {
    if ids != [] {
      var front, last := ids[..|ids| - 1], ids[|ids| - 1];
      BulkCall(b, front, reply, retire, id);
      assert id in ids <==> id in front || last == id by { assert ids == front + [last]; }
      OneTakenOff(b, ClosedAll(b, front, reply, retire), last, reply, retire, id, id in front);
    }
  }

  ghost predicate Obeys(b: Broker, b': Broker, id: string, sent: Option<Reply>)
    requires id in b.waiting && id in b.book.open
  {
    match sent
    case None => StillWaits(b, b', id)
    case Some(reply) => RepliedWith(b, b', id, reply)
  }

  lemma RespondStep(b: Broker, response: Response, now: nat, id: string)
    requires Ok(b) && id in b.waiting
    ensures Obeys(b, Received(b, response, now), id, Sends(b, Respond(response, now), id))
  {
  }

  lemma EndStep(b: Broker, operationId: string, ids: seq<string>, id: string)
    requires Ok(b) && Enabled(b, End(operationId, ids)) && id in b.waiting
    ensures Obeys(b, Next(b, End(operationId, ids)), id, Sends(b, End(operationId, ids), id))
  {
    BulkCall(b, ids, Unavailable, true, id);
  }

  /** The event's reply is sent and the call is done; without one the call goes on waiting. */
  lemma CallStep(b: Broker, e: Event, id: string)
    requires Ok(b) && Enabled(b, e) && id in b.waiting
    ensures Obeys(b, Next(b, e), id, Sends(b, e, id))
  {
    match e
    case Offer(_, _, _) =>
    case Respond(response, now) => RespondStep(b, response, now, id);
    case CancelNote(_) =>
    case Expire(_, ids) => BulkCall(b, ids, TimedOut, true, id);
    case Begin(_) =>
    case End(operationId, ids) => EndStep(b, operationId, ids, id);
    case Shutdown(ids) => BulkCall(b, ids, Unavailable, false, id);
    case RetireOther(_) =>
  }

  // ---- A reply once sent stands ----

  predicate Stands(b: Broker, b': Broker, t: nat)
    requires t in b.replies
  {
    t in b'.replies && b'.replies[t] == b.replies[t]
  }

  lemma RepliedIsNotOpen(b: Broker, t: nat, id: string)
    requires Ok(b) && Balanced(b.book) && t in b.replies && id in b.book.open
    ensures b.book.open[id] != t
  {
    assert b.book.open[id] in b.book.open.Values;
  }

  lemma ClosingStands(b: Broker, id: string, reply: Reply, retire: bool, t: nat)
    requires Ok(b) && Balanced(b.book) && t in b.replies && id in b.book.open
    ensures Stands(b, TakenOff(b, id, reply, retire), t)
  {
    RepliedIsNotOpen(b, t, id);
  }

  lemma {:induction false} BulkStands(b: Broker, ids: seq<string>, reply: Reply, retire: bool, t: nat)
    requires Ok(b) && Balanced(b.book) && t in b.replies
    ensures Stands(b, ClosedAll(b, ids, reply, retire), t)
  {
    if ids != [] {
      var front, last := ids[..|ids| - 1], ids[|ids| - 1];
      BulkStands(b, front, reply, retire, t);
      ClosedAllKeeps(b, front, reply, retire);
      var b' := ClosedAll(b, front, reply, retire);
      if last in b'.book.open { ClosingStands(b', last, reply, retire, t); }
    }
  }

  lemma ReplyStands(b: Broker, e: Event, t: nat)
    requires Ok(b) && Balanced(b.book) && t in b.replies
    ensures Stands(b, Next(b, e), t)
  {
    match e
    case Respond(response, now) =>
      if response.requestId in b.book.open { RepliedIsNotOpen(b, t, response.requestId); }
    case CancelNote(id) => if id in b.book.open { RepliedIsNotOpen(b, t, id); }
    case Expire(_, ids) => BulkStands(b, ids, TimedOut, true, t);
    case End(_, ids) => BulkStands(b, ids, Unavailable, true, t);
    case Shutdown(ids) => BulkStands(b, ids, Unavailable, false, t);
    case _ =>
  }

  lemma ReplyStandsInStep(bs: seq<Broker>, es: seq<Event>, k: nat, t: nat)
    requires Run(bs, es) && k < |es| && t in bs[k].replies
    ensures Stands(bs[k], bs[k + 1], t)
  {
    EveryStateIsOk(bs, es, k);
    assert Happens(bs, es, k);
    ReplyStands(bs[k], es[k], t);
  }

  lemma {:induction false} ReplyStandsInEveryRun(bs: seq<Broker>, es: seq<Event>, j: nat, k: nat, t: nat)
    requires Run(bs, es) && j <= k < |bs| && t in bs[j].replies
    ensures Stands(bs[j], bs[k], t)
  {
    if j < k {
      ReplyStandsInEveryRun(bs, es, j, k - 1, t);
      ReplyStandsInStep(bs, es, k - 1, t);
    }
  }

  // ---- The life of a call ----

  /** Event `j` sends nothing to the call waiting under `id`. */
  predicate Silent(bs: seq<Broker>, es: seq<Event>, j: nat, id: string)
    requires j < |es| && |bs| == |es| + 1
  {
    id in bs[j].waiting ==> Sends(bs[j], es[j], id).None?
  }

  /** The call accepted by event `i` waits before event `k`, under its id and with its ticket. */
  ghost predicate WaitsSince(bs: seq<Broker>, es: seq<Event>, i: nat, k: nat, id: string)
    requires i < |es| && k < |bs| == |es| + 1 && es[i].Offer?
  {
    && id in bs[k].waiting && id in bs[k].book.open && bs[k].book.open[id] == bs[i].book.issued
    && bs[k].waiting[id] == Waiting(es[i].call.operationId, es[i].call.deadline)
  }

  lemma CallStepInRun(bs: seq<Broker>, es: seq<Event>, k: nat, id: string)
    requires Run(bs, es) && k < |es| && id in bs[k].waiting
    ensures id in bs[k].book.open && Obeys(bs[k], bs[k + 1], id, Sends(bs[k], es[k], id))
  {
    EveryStateIsOk(bs, es, k);
    assert Happens(bs, es, k);
    CallStep(bs[k], es[k], id);
  }

  lemma CallBegins(bs: seq<Broker>, es: seq<Event>, i: nat, id: string)
    requires Run(bs, es) && i < |es| && Accepts(bs[i], es[i], id)
    ensures WaitsSince(bs, es, i, i + 1, id)
  {
    assert Happens(bs, es, i);
  }

  /** An accepted call waits as long as no event sends it anything. */
  lemma {:induction false} CallWaits(bs: seq<Broker>, es: seq<Event>, i: nat, k: nat, id: string)
    requires Run(bs, es) && i < k < |bs| && Accepts(bs[i], es[i], id)
    requires forall j :: i < j < k ==> Silent(bs, es, j, id)
    ensures WaitsSince(bs, es, i, k, id)
  {
    if k == i + 1 {
      CallBegins(bs, es, i, id);
    } else {
      CallWaits(bs, es, i, k - 1, id);
      assert Silent(bs, es, k - 1, id);
      CallStepInRun(bs, es, k - 1, id);
    }
  }

  /** The first event that sends it a reply decides for good what its ticket was told. */
  lemma FirstReplyIsFinal(bs: seq<Broker>, es: seq<Event>, i: nat, j: nat, k: nat, id: string)
    requires Run(bs, es) && i < j < k < |bs| && Accepts(bs[i], es[i], id)
    requires forall m :: i < m < j ==> Silent(bs, es, m, id)
    requires !Silent(bs, es, j, id)
    ensures bs[i].book.issued in bs[k].replies
    ensures Some(bs[k].replies[bs[i].book.issued]) == Sends(bs[j], es[j], id)
  {
    CallWaits(bs, es, i, j, id);
    CallStepInRun(bs, es, j, id);
    ReplyStandsInEveryRun(bs, es, j + 1, k, bs[i].book.issued);
  }
}
