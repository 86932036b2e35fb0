/** Credential calls that workers make through the daemon to the client: each waits under the request id
    it chose until the client answers, a deadline passes, or its operation ends. The id of a call that
    ended without an answer is retired, and the next response under it is swallowed. */
module Broker {
  import opened BoundedQueue
  import opened Collections
  import opened Options
  import opened Ledger

  const MAX_WAITING: nat := 64

  datatype Call = Call(operationId: string, requestId: string, deadline: nat)

  /** A client's response: a result, an error as the daemon reads it, or neither or both. */
  datatype Response = Response(requestId: string, result: Option<string>, error: Option<string>)

  /** What goes back to the worker. */
  datatype Reply = Answered(result: string) | Refused(error: string) | Unavailable | TimedOut | Cancelled | Invalid

  datatype Waiting = Waiting(operationId: string, deadline: nat)

  /** `book` has a ticket for every call, `waiting` what is known of the open ones, `replies` what was
      sent on the closed ones, `operations` the remote operations under way, `retired` the ids whose
      response may come too late. */
  datatype Broker = Broker(
    book: Book, waiting: map<string, Waiting>, replies: map<nat, Reply>, operations: set<string>, retired: seq<string>)

  predicate Refuses(b: Broker, call: Call, now: nat, terminal: bool) {
    || terminal
    || call.operationId !in b.operations
    || call.requestId == "" || Utf8Length(call.requestId) > 128
    || call.requestId in b.book.open
    || now >= call.deadline
    || |b.book.open| >= MAX_WAITING
  }

  function Offered(b: Broker, call: Call, now: nat, terminal: bool): Broker {
    if Refuses(b, call, now, terminal) then
      b.(book := IssueClosed(b.book), replies := b.replies[b.book.issued := Unavailable])
    else
      b.(book := IssueOpen(b.book, call.requestId),
        waiting := b.waiting[call.requestId := Waiting(call.operationId, call.deadline)])
  }

  /** The call under this id is taken off and replied to. */
  function Closed(b: Broker, id: string, reply: Reply): Broker
    requires id in b.book.open
  {
    b.(book := CloseKey(b.book, id), waiting := b.waiting - {id}, replies := b.replies[b.book.open[id] := reply])
  }

  /** The same, for a call that may yet be answered: its id is retired. */
  function Withdrawn(b: Broker, id: string, reply: Reply): Broker
    requires id in b.book.open
  {
    Closed(b, id, reply).(retired := Inserted(b.retired, id))
  }

  function TakenOff(b: Broker, id: string, reply: Reply, retire: bool): Broker
    requires id in b.book.open
  {
    if retire then Withdrawn(b, id, reply) else Closed(b, id, reply)
  }

  function ReplyFor(response: Response, deadline: nat, now: nat): Reply {
    match (response.result, response.error)
    case (Some(result), None) => if now < deadline then Answered(result) else TimedOut
    case (None, Some(error)) => Refused(error)
    case _ => Invalid
  }

  function Routed(b: Broker, response: Response, now: nat): Broker
    requires b.waiting.Keys == b.book.open.Keys
  {
    var id := response.requestId;
    if id in b.book.open then Closed(b, id, ReplyFor(response, b.waiting[id].deadline, now)) else b
  }

  /** A response under a retired id is swallowed and frees the id; any other is routed. */
  function Received(b: Broker, response: Response, now: nat): Broker
    requires b.waiting.Keys == b.book.open.Keys
  {
    if response.requestId in b.retired then b.(retired := Without(b.retired, response.requestId))
    else Routed(b, response, now)
  }

  function ClosedAll(b: Broker, ids: seq<string>, reply: Reply, retire: bool): Broker {
    if ids == [] then b
    else
      var b' := ClosedAll(b, ids[..|ids| - 1], reply, retire);
      var id := ids[|ids| - 1];
      if id in b'.book.open then TakenOff(b', id, reply, retire) else b'
  }

  // ---- What holds ----

  predicate Ok(b: Broker) {
    && b.waiting.Keys == b.book.open.Keys
    && |b.book.open| <= MAX_WAITING
    && (forall id :: id in b.waiting ==> b.waiting[id].operationId in b.operations)
    && (forall t :: t in b.replies ==> t in b.book.closed)
    && (forall t :: t in b.book.closed ==> t in b.replies)
  }

  lemma RefusedStaysOk(b: Broker)
    requires Ok(b)
    ensures Ok(b.(book := IssueClosed(b.book), replies := b.replies[b.book.issued := Unavailable]))
  {
    var b' := b.(book := IssueClosed(b.book), replies := b.replies[b.book.issued := Unavailable]);
    assert forall t: nat :: t in b'.book.closed <==> t in b.book.closed || t == b.book.issued;
  }

  lemma AcceptedStaysOk(b: Broker, id: string, w: Waiting)
    requires Ok(b) && id !in b.book.open && |b.book.open| < MAX_WAITING && w.operationId in b.operations
    ensures Ok(b.(book := IssueOpen(b.book, id), waiting := b.waiting[id := w]))
  {
    assert IssueOpen(b.book, id).open.Keys == b.book.open.Keys + {id};
  }

  lemma OfferedStaysOk(b: Broker, call: Call, now: nat, terminal: bool)
    requires Ok(b)
    ensures Ok(Offered(b, call, now, terminal))
  {
    if Refuses(b, call, now, terminal) {
      RefusedStaysOk(b);
    } else {
      AcceptedStaysOk(b, call.requestId, Waiting(call.operationId, call.deadline));
    }
  }

  lemma OfferedKeeps(b: Broker, call: Call, now: nat, terminal: bool)
    requires Ok(b) && Balanced(b.book)
    ensures Ok(Offered(b, call, now, terminal)) && Balanced(Offered(b, call, now, terminal).book)
  {
    OfferedStaysOk(b, call, now, terminal);
    if Refuses(b, call, now, terminal) {
      IssueClosedBalances(b.book);
    } else {
      IssueOpenBalances(b.book, call.requestId);
    }
  }

  lemma ClosedKeeps(b: Broker, id: string, reply: Reply)
    requires Ok(b) && Balanced(b.book) && id in b.book.open
    ensures Ok(Closed(b, id, reply)) && Balanced(Closed(b, id, reply).book)
  {
    CloseKeyBalances(b.book, id);
    assert Closed(b, id, reply).book.open.Keys == b.book.open.Keys - {id};
  }

  lemma TakenOffKeeps(b: Broker, id: string, reply: Reply, retire: bool)
    requires Ok(b) && Balanced(b.book) && id in b.book.open
    ensures Ok(TakenOff(b, id, reply, retire)) && Balanced(TakenOff(b, id, reply, retire).book)
  {
    ClosedKeeps(b, id, reply);
  }

  /** What is left when some of the waiting calls are taken off. */
  ghost predicate Left(b: Broker, ids: seq<string>, b': Broker) {
    && b'.operations == b.operations
    && (forall id :: id in b'.waiting <==> id in b.waiting && id !in ids)
    && (forall id :: id in b'.waiting ==> b'.waiting[id] == b.waiting[id])
  }

  lemma LeftOneLess(b: Broker, ids: seq<string>, b': Broker, id: string, reply: Reply, retire: bool)
    requires Left(b, ids, b') && b'.waiting.Keys == b'.book.open.Keys
    ensures Left(b, ids + [id], if id in b'.book.open then TakenOff(b', id, reply, retire) else b')
  {
  }

  lemma {:induction false} ClosedAllKeeps(b: Broker, ids: seq<string>, reply: Reply, retire: bool)
    requires Ok(b) && Balanced(b.book)
    ensures Ok(ClosedAll(b, ids, reply, retire)) && Balanced(ClosedAll(b, ids, reply, retire).book)
    ensures Left(b, ids, ClosedAll(b, ids, reply, retire))
  {
    if ids != [] {
      var front, last := ids[..|ids| - 1], ids[|ids| - 1];
      ClosedAllKeeps(b, front, reply, retire);
      assert ids == front + [last];
      var b' := ClosedAll(b, front, reply, retire);
      LeftOneLess(b, front, b', last, reply, retire);
      if last in b'.book.open {
        TakenOffKeeps(b', last, reply, retire);
      }
    }
  }

  // ---- The table ----

  /** Responders are named by tickets; sending on one is recorded in `closed` and `replies`. */
  class BrokerTable {
    var issued: nat
    var open: map<string, nat>
    var waiting: map<string, Waiting>
    var closed: multiset<nat>
    var replies: map<nat, Reply>
    var retired: seq<string>

    ghost function View(operations: set<string>): Broker
      reads this
    {
      Broker(Book(issued, open, closed), waiting, replies, operations, retired)
    }

    constructor ()
      ensures View({}) == START
    {
      issued, open, waiting, closed, replies, retired := 0, map[], map[], multiset{}, map[], [];
    }

    method AcceptCall(call: Call, operations: set<string>, now: nat, terminal: bool)
      modifies this
      ensures View(operations) == Offered(old(View(operations)), call, now, terminal)
    {
      var ticket := issued;
      issued := issued + 1;
      if terminal || call.operationId !in operations || call.requestId == "" || Utf8Length(call.requestId) > 128
        || call.requestId in open || now >= call.deadline || |open| >= MAX_WAITING
      {
        closed, replies := closed + multiset{ticket}, replies[ticket := Unavailable];
        return;
      }
      open := open[call.requestId := ticket];
      waiting := waiting[call.requestId := Waiting(call.operationId, call.deadline)];
    }

    method CloseCall(id: string, reply: Reply)
      requires id in open
      modifies this
      ensures forall operations :: View(operations) == Closed(old(View(operations)), id, reply)
    {
      closed, replies := closed + multiset{open[id]}, replies[open[id] := reply];
      open, waiting := open - {id}, waiting - {id};
    }

    method RetireId(id: string)
      modifies this`retired
      ensures retired == Inserted(old(retired), id)
    {
      retired := InsertPendingId(retired, id);
    }

    /** True if the response came under a retired id, which it frees. */
    method ConsumeRetired(id: string) returns (swallowed: bool)
      modifies this`retired
      ensures swallowed == (id in old(retired)) && retired == Without(old(retired), id)
    {
      retired, swallowed := RemovePendingId(retired, id);
    }

    /** True if the response belonged to a waiting call. */
    method RouteResponse(response: Response, now: nat) returns (routed: bool)
      requires waiting.Keys == open.Keys
      modifies this
      ensures routed == (response.requestId in old(open))
      ensures forall operations :: View(operations) == Routed(old(View(operations)), response, now)
    {
      var id := response.requestId;
      if id !in open {
        return false;
      }
      assert id in waiting;
      CloseCall(id, ReplyFor(response, waiting[id].deadline, now));
      return true;
    }

    /** A response as it comes in: swallowed, routed to a waiting call, or left to others. */
    method ReceiveResponse(response: Response, now: nat) returns (taken: bool)
      requires waiting.Keys == open.Keys
      modifies this
      ensures taken == (response.requestId in old(retired) || response.requestId in old(open))
      ensures forall operations :: View(operations) == Received(old(View(operations)), response, now)
    {
      var swallowed := ConsumeRetired(response.requestId);
      if swallowed {
        return true;
      }
      WithoutAbsent(old(retired), response.requestId);
      taken := RouteResponse(response, now);
    }

    method TakeOff(id: string, reply: Reply, retire: bool)
      requires id in open
      modifies this
      ensures forall operations :: View(operations) == TakenOff(old(View(operations)), id, reply, retire)
    {
      CloseCall(id, reply);
      if retire {
        RetireId(id);
      }
    }

    method CloseMany(ids: seq<string>, reply: Reply, retire: bool)
      modifies this
      ensures forall operations :: View(operations) == ClosedAll(old(View(operations)), ids, reply, retire)
    {
      for i := 0 to |ids|
        invariant forall operations :: View(operations) == ClosedAll(old(View(operations)), ids[..i], reply, retire)
      {
        assert ids[..i + 1][..i] == ids[..i];
        assert View({}) == ClosedAll(old(View({})), ids[..i], reply, retire);
        if ids[i] in open {
          TakeOff(ids[i], reply, retire);
        }
      }
      assert ids[..|ids|] == ids;
    }

    /** The ids whose call meets the condition. */
    method Matching(p: Waiting -> bool) returns (ids: seq<string>)
      ensures forall id :: id in ids <==> id in waiting && p(waiting[id])
    {
      ids := [];
      var todo := waiting.Keys;
      while todo != {}
        invariant todo <= waiting.Keys
        invariant forall id :: id in ids <==> id in waiting && id !in todo && p(waiting[id])
        decreases |todo|
      {
        var id :| id in todo;
        if p(waiting[id]) {
          ids := ids + [id];
        }
        todo := todo - {id};
      }
    }

    method ExpireCalls(now: nat) returns (ids: seq<string>)
      modifies this
      ensures forall id :: id in ids <==> id in old(waiting) && now >= old(waiting)[id].deadline
      ensures forall operations :: View(operations) == ClosedAll(old(View(operations)), ids, TimedOut, true)
    {
      ids := Matching((w: Waiting) => now >= w.deadline);
      CloseMany(ids, TimedOut, true);
    }

    method FailOperationCalls(operationId: string) returns (ids: seq<string>)
      modifies this
      ensures forall id :: id in ids <==> id in old(waiting) && old(waiting)[id].operationId == operationId
      ensures forall operations :: View(operations) == ClosedAll(old(View(operations)), ids, Unavailable, true)
    {
      ids := Matching((w: Waiting) => w.operationId == operationId);
      CloseMany(ids, Unavailable, true);
    }

    method FailAllCalls() returns (ids: seq<string>)
      modifies this
      ensures forall id :: id in ids <==> id in old(waiting)
      ensures forall operations :: View(operations) == ClosedAll(old(View(operations)), ids, Unavailable, false)
    {
      ids := Matching((w: Waiting) => true);
      CloseMany(ids, Unavailable, false);
    }
  }

  const START := Broker(Book(0, map[], multiset{}), map[], map[], {}, [])

  // ---- Runs ----

  datatype Event =
    | Offer(call: Call, now: nat, terminal: bool)
    | Respond(response: Response, now: nat)
    | CancelNote(id: string)
    | Expire(now: nat, ids: seq<string>)
    | Begin(operationId: string)
    | End(operationId: string, ids: seq<string>)
    | Shutdown(ids: seq<string>)
    /** A call the daemon made for itself ended without an answer. */
    | RetireOther(id: string)

  predicate Enabled(b: Broker, e: Event) {
    match e
    case Expire(now, ids) => forall id :: id in b.waiting ==> (id in ids <==> now >= b.waiting[id].deadline)
    case End(operationId, ids) =>
      forall id :: id in b.waiting ==> (id in ids <==> b.waiting[id].operationId == operationId)
    case Shutdown(ids) => forall id :: id in b.waiting ==> id in ids
    case _ => true
  }

  function Next(b: Broker, e: Event): Broker
    requires b.waiting.Keys == b.book.open.Keys
  {
    match e
    case Offer(call, now, terminal) => Offered(b, call, now, terminal)
    case Respond(response, now) => Received(b, response, now)
    case CancelNote(id) => if id in b.book.open then Withdrawn(b, id, Cancelled) else b
    case Expire(_, ids) => ClosedAll(b, ids, TimedOut, true)
    case Begin(operationId) => b.(operations := b.operations + {operationId})
    case End(operationId, ids) =>
      var b' := ClosedAll(b, ids, Unavailable, true);
      b'.(operations := b'.operations - {operationId})
    case Shutdown(ids) => ClosedAll(b, ids, Unavailable, false)
    case RetireOther(id) => b.(retired := Inserted(b.retired, id))
  }

  lemma CancelNoteKeeps(b: Broker, id: string)
    requires Ok(b) && Balanced(b.book)
    ensures Ok(Next(b, CancelNote(id))) && Balanced(Next(b, CancelNote(id)).book)
  {
    if id in b.book.open {
      TakenOffKeeps(b, id, Cancelled, true);
    }
  }

  lemma RespondKeeps(b: Broker, response: Response, now: nat)
    requires Ok(b) && Balanced(b.book)
    ensures Ok(Received(b, response, now)) && Balanced(Received(b, response, now).book)
  {
    var id := response.requestId;
    if id !in b.retired && id in b.book.open {
      ClosedKeeps(b, id, ReplyFor(response, b.waiting[id].deadline, now));
    }
  }

  lemma EndKeeps(b: Broker, operationId: string, ids: seq<string>)
    requires Ok(b) && Balanced(b.book) && Enabled(b, End(operationId, ids))
    ensures Ok(Next(b, End(operationId, ids))) && Balanced(Next(b, End(operationId, ids)).book)
  {
    ClosedAllKeeps(b, ids, Unavailable, true);
  }

  /** Every event keeps the table and the tickets in order. */
  lemma EventKeeps(b: Broker, e: Event)
    requires Ok(b) && Balanced(b.book) && Enabled(b, e)
    ensures Ok(Next(b, e)) && Balanced(Next(b, e).book)
  {
    match e
    case Offer(call, now, terminal) => OfferedKeeps(b, call, now, terminal);
    case Respond(response, now) => RespondKeeps(b, response, now);
    case CancelNote(id) => CancelNoteKeeps(b, id);
    case Expire(_, ids) => ClosedAllKeeps(b, ids, TimedOut, true);
    case Begin(_) =>
    case End(operationId, ids) => EndKeeps(b, operationId, ids);
    case Shutdown(ids) => ClosedAllKeeps(b, ids, Unavailable, false);
    case RetireOther(_) =>
  }

  ghost predicate Happens(bs: seq<Broker>, es: seq<Event>, i: nat)
    requires i < |es| && |bs| == |es| + 1
  {
    bs[i].waiting.Keys == bs[i].book.open.Keys && Enabled(bs[i], es[i]) && bs[i + 1] == Next(bs[i], es[i])
  }

  ghost predicate Run(bs: seq<Broker>, es: seq<Event>) {
    |bs| == |es| + 1 && bs[0] == START && forall i :: 0 <= i < |es| ==> Happens(bs, es, i)
  }

  /** In every state of every run each call taken off the channel either waits under exactly one id or
      has been sent exactly one reply; no more than 64 wait, each for an operation under way. */
  lemma {:induction false} EveryStateIsOk(bs: seq<Broker>, es: seq<Event>, k: nat)
    requires Run(bs, es) && k < |bs|
    ensures Ok(bs[k]) && Balanced(bs[k].book)
  {
    if k > 0 {
      EveryStateIsOk(bs, es, k - 1);
      assert Happens(bs, es, k - 1);
      EventKeeps(bs[k - 1], es[k - 1]);
    }
  }

  // ---- Whose answer ----

  /** Event `i` offered the call that got ticket `t`. */
  ghost predicate OfferedAt(bs: seq<Broker>, es: seq<Event>, i: nat, t: nat)
    requires i < |es| && |bs| == |es| + 1
  {
    es[i].Offer? && bs[i].book.issued == t
  }

  /** The call waiting under `id` is one that was offered under that id. */
  ghost predicate FromOffer(bs: seq<Broker>, es: seq<Event>, k: nat, id: string)
    requires k < |bs| == |es| + 1 && id in bs[k].book.open && id in bs[k].waiting
  {
    exists i :: 0 <= i < k && OfferedAt(bs, es, i, bs[k].book.open[id])
      && es[i].call == Call(bs[k].waiting[id].operationId, id, bs[k].waiting[id].deadline)
  }

  /** The answer sent on ticket `t` was a response under that call's id which came after the call, in
      time, while its operation was under way, and was not swallowed. */
  ghost predicate OwnAnswer(bs: seq<Broker>, es: seq<Event>, k: nat, t: nat, result: string)
    requires k < |bs| == |es| + 1
  {
    exists i, j :: 0 <= i < j < k && OfferedAt(bs, es, i, t) && AnsweredAt(bs, es, j, es[i].call, result)
  }

  ghost predicate AnsweredAt(bs: seq<Broker>, es: seq<Event>, j: nat, call: Call, result: string)
    requires j < |es| && |bs| == |es| + 1
  {
    && es[j].Respond?
    && es[j].response == Response(call.requestId, Some(result), None)
    && es[j].now < call.deadline
    && call.operationId in bs[j].operations
    && call.requestId !in bs[j].retired
  }

  /** Bulk closing sends nothing but its one reply. */
  lemma {:induction false} BulkReplies(b: Broker, ids: seq<string>, reply: Reply, retire: bool)
    ensures var b' := ClosedAll(b, ids, reply, retire);
      && (forall t :: t in b'.replies ==> b'.replies[t] == reply || (t in b.replies && b'.replies[t] == b.replies[t]))
      && (forall id :: id in b'.book.open ==> id in b.book.open && b'.book.open[id] == b.book.open[id])
  {
    if ids != [] {
      BulkReplies(b, ids[..|ids| - 1], reply, retire);
    }
  }

  predicate Accepts(b: Broker, e: Event, id: string) {
    e.Offer? && e.call.requestId == id && !Refuses(b, e.call, e.now, e.terminal)
  }

  lemma JustOffered(bs: seq<Broker>, es: seq<Event>, k: nat, id: string)
    requires Run(bs, es) && k < |es| && Accepts(bs[k], es[k], id)
    ensures id in bs[k + 1].book.open && id in bs[k + 1].waiting && FromOffer(bs, es, k + 1, id)
  {
    assert Happens(bs, es, k);
    assert OfferedAt(bs, es, k, bs[k + 1].book.open[id]);
  }

  lemma FromOfferStays(bs: seq<Broker>, es: seq<Event>, k: nat, id: string)
    requires |bs| == |es| + 1 && k < |es| && id in bs[k].book.open && id in bs[k].waiting && FromOffer(bs, es, k, id)
    requires id in bs[k + 1].book.open && id in bs[k + 1].waiting
    requires bs[k + 1].book.open[id] == bs[k].book.open[id] && bs[k + 1].waiting[id] == bs[k].waiting[id]
    ensures FromOffer(bs, es, k + 1, id)
  {
  }

  lemma {:induction false} WaitingCallsWereOffered(bs: seq<Broker>, es: seq<Event>, k: nat, id: string)
    requires Run(bs, es) && k < |bs| && id in bs[k].book.open && id in bs[k].waiting
    ensures FromOffer(bs, es, k, id)
  {
    if k > 0 {
      if Accepts(bs[k - 1], es[k - 1], id) {
        JustOffered(bs, es, k - 1, id);
      } else {
        EveryStateIsOk(bs, es, k - 1);
        assert Happens(bs, es, k - 1);
        OlderCall(bs[k - 1], es[k - 1], id);
        WaitingCallsWereOffered(bs, es, k - 1, id);
        FromOfferStays(bs, es, k - 1, id);
      }
    }
  }

  lemma OlderCallInBulk(b: Broker, ids: seq<string>, reply: Reply, retire: bool, id: string)
    requires Ok(b) && Balanced(b.book) && id in ClosedAll(b, ids, reply, retire).book.open
    ensures id in b.book.open && id in b.waiting && id in ClosedAll(b, ids, reply, retire).waiting
    ensures ClosedAll(b, ids, reply, retire).book.open[id] == b.book.open[id]
    ensures ClosedAll(b, ids, reply, retire).waiting[id] == b.waiting[id]
  {
    BulkReplies(b, ids, reply, retire);
    ClosedAllKeeps(b, ids, reply, retire);
  }

  /** A call that waits after an event and was not offered by it waited before. */
  lemma OlderCall(b: Broker, e: Event, id: string)
    requires Ok(b) && Balanced(b.book) && id in Next(b, e).book.open && id in Next(b, e).waiting
    requires !Accepts(b, e, id)
    ensures id in b.book.open && id in b.waiting
    ensures Next(b, e).book.open[id] == b.book.open[id] && Next(b, e).waiting[id] == b.waiting[id]
  {
    match e
    case Expire(_, ids) => OlderCallInBulk(b, ids, TimedOut, true, id);
    case End(_, ids) => OlderCallInBulk(b, ids, Unavailable, true, id);
    case Shutdown(ids) => OlderCallInBulk(b, ids, Unavailable, false, id);
    case _ =>
  }

  lemma JustAnswered(bs: seq<Broker>, es: seq<Event>, k: nat, id: string)
    requires Run(bs, es) && k < |es| && Ok(bs[k]) && id in bs[k].book.open && id in bs[k].waiting
    requires es[k].Respond? && es[k].response.requestId == id && id !in bs[k].retired
    requires ReplyFor(es[k].response, bs[k].waiting[id].deadline, es[k].now).Answered?
    ensures OwnAnswer(bs, es, k
      + 1, bs[k].book.open[id], ReplyFor(es[k].response, bs[k].waiting[id].deadline, es[k].now).result)
  {
    WaitingCallsWereOffered(bs, es, k, id);
    var t := bs[k].book.open[id];
    var i :| 0 <= i < k && OfferedAt(bs, es, i, t)
      && es[i].call == Call(bs[k].waiting[id].operationId, id, bs[k].waiting[id].deadline);
    assert AnsweredAt(bs, es, k, es[i].call, ReplyFor(es[k].response, bs[k].waiting[id].deadline, es[k].now).result);
  }

  lemma OwnAnswerStays(bs: seq<Broker>, es: seq<Event>, k: nat, t: nat, result: string)
    requires k < |es| && |bs| == |es| + 1 && OwnAnswer(bs, es, k, t, result)
    ensures OwnAnswer(bs, es, k + 1, t, result)
  {
    var i, j :| 0 <= i < j < k && OfferedAt(bs, es, i, t) && AnsweredAt(bs, es, j, es[i].call, result);
  }

  lemma EveryTableIsOk(bs: seq<Broker>, es: seq<Event>, k: nat)
    requires Run(bs, es) && k < |bs|
    ensures Ok(bs[k])
  {
    EveryStateIsOk(bs, es, k);
  }

  predicate AnswersTicket(b: Broker, e: Event, t: nat) {
    && e.Respond? && e.response.requestId in b.book.open && b.book.open[e.response.requestId] == t
    && e.response.requestId !in b.retired
  }

  lemma RespondReplies(b: Broker, e: Event, t: nat)
    requires Ok(b) && AnswersTicket(b, e, t)
    ensures t in Next(b, e).replies
    ensures Next(b, e).replies[t] == ReplyFor(e.response, b.waiting[e.response.requestId].deadline, e.now)
  {
  }

  lemma NewestAnswer(bs: seq<Broker>, es: seq<Event>, k: nat, t: nat)
    requires Run(bs, es) && k < |es| && AnswersTicket(bs[k], es[k], t)
    requires t in bs[k + 1].replies && bs[k + 1].replies[t].Answered?
    ensures OwnAnswer(bs, es, k + 1, t, bs[k + 1].replies[t].result)
  {
    EveryTableIsOk(bs, es, k);
    assert Happens(bs, es, k);
    RespondReplies(bs[k], es[k], t);
    JustAnswered(bs, es, k, es[k].response.requestId);
  }

  lemma EarlierAnswer(bs: seq<Broker>, es: seq<Event>, k: nat, t: nat)
    requires Run(bs, es) && k < |es| && !AnswersTicket(bs[k], es[k], t)
    requires t in bs[k + 1].replies && bs[k + 1].replies[t].Answered?
    ensures t in bs[k].replies && bs[k].replies[t] == bs[k + 1].replies[t]
  {
    EveryTableIsOk(bs, es, k);
    assert Happens(bs, es, k);
    OlderReply(bs[k], es[k], t);
  }

  /** An answer a worker gets is a response under its call's id, come after the call, in time, while its
      operation was under way, and not swallowed. */
  lemma {:induction false} AnswersReachTheirCall(bs: seq<Broker>, es: seq<Event>, k: nat, t: nat)
    requires Run(bs, es) && k < |bs| && t in bs[k].replies && bs[k].replies[t].Answered?
    ensures OwnAnswer(bs, es, k, t, bs[k].replies[t].result)
  {
    if k > 0 {
      if AnswersTicket(bs[k - 1], es[k - 1], t) {
        NewestAnswer(bs, es, k - 1, t);
      } else {
        EarlierAnswer(bs, es, k - 1, t);
        AnswersReachTheirCall(bs, es, k - 1, t);
        OwnAnswerStays(bs, es, k - 1, t, bs[k].replies[t].result);
      }
    }
  }

  lemma OlderReply(b: Broker, e: Event, t: nat)
    requires Ok(b) && t in Next(b, e).replies && Next(b, e).replies[t].Answered?
    requires !AnswersTicket(b, e, t)
    ensures t in b.replies && b.replies[t] == Next(b, e).replies[t]
  {
    if e.Expire? {
      BulkReplies(b, e.ids, TimedOut, true);
    } else if e.End? || e.Shutdown? {
      BulkReplies(b, e.ids, Unavailable, e.End?);
    }
  }

  // ---- Late responses ----

  /** The ids that bulk closing retires, in order. */
  function RetireEvents(open: set<string>, ids: seq<string>): seq<QueueEvent> {
    if ids == [] then []
    else
      var front, last := ids[..|ids| - 1], ids[|ids| - 1];
      RetireEvents(open, front) + if last in open && last !in front then [Insert(last)] else []
  }

  lemma {:induction false} BulkRetires(b: Broker, ids: seq<string>, reply: Reply)
    requires Ok(b) && Balanced(b.book)
    ensures ClosedAll(b, ids, reply, true).retired == QueueAfterAll(b.retired, RetireEvents(b.book.open.Keys, ids))
  {
    if ids != [] {
      var front, last := ids[..|ids| - 1], ids[|ids| - 1];
      BulkRetires(b, front, reply);
      ClosedAllKeeps(b, front, reply, true);
      var events := RetireEvents(b.book.open.Keys, front);
      assert (events + [Insert(last)])[..|events|] == events && events + [] == events;
    }
  }

  /** What an event does to the retired ids. */
  function Retirements(b: Broker, e: Event): seq<QueueEvent> {
    match e
    case Respond(response, _) => [Remove(response.requestId)]
    case CancelNote(id) => if id in b.book.open then [Insert(id)] else []
    case Expire(_, ids) => RetireEvents(b.book.open.Keys, ids)
    case End(_, ids) => RetireEvents(b.book.open.Keys, ids)
    case RetireOther(id) => [Insert(id)]
    case _ => []
  }

  lemma OneQueueEvent(q: seq<string>, e: QueueEvent)
    ensures QueueAfterAll(q, [e]) == QueueAfter(q, e)
  {
    assert [e][..0] == [];
  }

  lemma {:induction false} ShutdownRetiresNone(b: Broker, ids: seq<string>)
    ensures ClosedAll(b, ids, Unavailable, false).retired == b.retired
  {
    if ids != [] {
      ShutdownRetiresNone(b, ids[..|ids| - 1]);
    }
  }

  lemma RetiredFollow(b: Broker, e: Event)
    requires Ok(b) && Balanced(b.book)
    ensures Next(b, e).retired == QueueAfterAll(b.retired, Retirements(b, e))
  {
    match e
    case Respond(response, _) =>
      OneQueueEvent(b.retired, Remove(response.requestId));
      if response.requestId !in b.retired {
        WithoutAbsent(b.retired, response.requestId);
      }
    case CancelNote(id) => OneQueueEvent(b.retired, Insert(id));
    case Expire(_, ids) => BulkRetires(b, ids, TimedOut);
    case End(_, ids) => BulkRetires(b, ids, Unavailable);
    case RetireOther(id) => OneQueueEvent(b.retired, Insert(id));
    case Shutdown(ids) => ShutdownRetiresNone(b, ids);
    case _ =>
  }

  /** What happened to the retired ids before event `k`. */
  function History(bs: seq<Broker>, es: seq<Event>, k: nat): seq<QueueEvent>
    requires k <= |es| && |bs| == |es| + 1
  {
    if k == 0 then [] else History(bs, es, k - 1) + Retirements(bs[k - 1], es[k - 1])
  }

  lemma RetiredStep(bs: seq<Broker>, es: seq<Event>, k: nat)
    requires Run(bs, es) && k < |es|
    ensures bs[k + 1].retired == QueueAfterAll(bs[k].retired, Retirements(bs[k], es[k]))
  {
    EveryStateIsOk(bs, es, k);
    assert Happens(bs, es, k);
    RetiredFollow(bs[k], es[k]);
  }

  lemma HistoryGoesOn(q: seq<string>, q': seq<string>, history: seq<QueueEvent>, events: seq<QueueEvent>)
    requires q == QueueAfterAll([], history) && q' == QueueAfterAll(q, events)
    ensures q' == QueueAfterAll([], history + events)
  {
    QueueAfterBoth([], history, events);
  }

  /** The retired ids went through what event `i` did to them. */
  predicate Follows(bs: seq<Broker>, es: seq<Event>, i: nat)
    requires i < |es| && |bs| == |es| + 1
  {
    bs[i + 1].retired == QueueAfterAll(bs[i].retired, Retirements(bs[i], es[i]))
  }

  lemma {:induction false} FollowedIsHistory(bs: seq<Broker>, es: seq<Event>, k: nat)
    requires |bs| == |es| + 1 && k < |bs| && bs[0].retired == []
    requires forall i :: 0 <= i < |es| ==> Follows(bs, es, i)
    ensures bs[k].retired == QueueAfterAll([], History(bs, es, k))
  {
    if k > 0 {
      FollowedIsHistory(bs, es, k - 1);
      assert Follows(bs, es, k - 1);
      HistoryGoesOn(bs[k - 1].retired, bs[k].retired, History(bs, es, k - 1), Retirements(bs[k - 1], es[k - 1]));
    }
  }

  lemma RetiredIsHistory(bs: seq<Broker>, es: seq<Event>, k: nat)
    requires Run(bs, es) && k < |bs|
    ensures bs[k].retired == QueueAfterAll([], History(bs, es, k))
  {
    forall i | 0 <= i < |es| ensures Follows(bs, es, i) {
      RetiredStep(bs, es, i);
    }
    FollowedIsHistory(bs, es, k);
  }

  /** Exactly which responses are swallowed, in every run: those under an id that was retired, with no
      response under it since and never 64 other retired ids behind it since. A swallowed response
      answers nobody; any other one answers the call waiting under its id, whichever call that is. */
  lemma SwallowedIff(bs: seq<Broker>, es: seq<Event>, k: nat)
    requires Run(bs, es) && k < |es| && es[k].Respond?
    ensures var id := es[k].response.requestId;
      && (id in bs[k].retired <==> Remains(History(bs, es, k), id))
      && (id in bs[k].retired ==> bs[k + 1] == bs[k].(retired := Without(bs[k].retired, id)))
      && (id !in bs[k].retired && id in bs[k].book.open ==>
            && id in bs[k].waiting
            && bs[k + 1] == Closed(bs[k], id, ReplyFor(es[k].response, bs[k].waiting[id].deadline, es[k].now)))
  {
    RetiredIsHistory(bs, es, k);
    RemainsIff(History(bs, es, k), es[k].response.requestId);
    assert Happens(bs, es, k);
  }

  // ---- A late response that reaches a later call ----

  const FIRST := Call("o", "r", 5)
  const SECOND := Call("o", "r", 9)

  function ResponseUnder(text: string): Response { Response("r", Some(text), None) }

  const WAITING_FIRST := START.(
    book := Book(1, map["r" := 0], multiset{}), waiting := map["r" := Waiting("o", 5)], operations := {"o"})
  const TIMED_OUT := START.(
    book := Book(1, map[], multiset{0}), replies := map[0 := TimedOut], operations := {"o"}, retired := ["r"])
  const WAITING_SECOND :=
    TIMED_OUT.(book := Book(2, map["r" := 1], multiset{0}), waiting := map["r" := Waiting("o", 9)])

  predicate Leads(b: Broker, e: Event, b': Broker) {
    b.waiting.Keys == b.book.open.Keys && Enabled(b, e) && Next(b, e) == b'
  }

  lemma FirstWaits()
    ensures Leads(START, Begin("o"), START.(operations := {"o"}))
    ensures Leads(START.(operations := {"o"}), Offer(FIRST, 0, false), WAITING_FIRST)
  {
    assert Utf8Length("r") == 1;
  }

  lemma FirstTimesOut()
    ensures Leads(WAITING_FIRST, Expire(5, ["r"]), TIMED_OUT)
  {
    assert ["r"][..0] == [] && ClosedAll(WAITING_FIRST, [], TimedOut, true) == WAITING_FIRST;
    assert Next(WAITING_FIRST, Expire(5, ["r"])) == Withdrawn(WAITING_FIRST, "r", TimedOut);
    assert WAITING_FIRST.book.open - {"r"} == map[] && WAITING_FIRST.waiting - {"r"} == map[];
    assert Inserted([], "r") == ["r"];
  }

  lemma SecondWaits()
    ensures Leads(TIMED_OUT, Offer(SECOND, 5, false), WAITING_SECOND)
  {
    assert Utf8Length("r") == 1;
  }

  lemma SecondIsAnswered() returns (last: Broker)
    ensures Leads(WAITING_SECOND, Respond(ResponseUnder("to the second"), 6), WAITING_SECOND.(retired := []))
    ensures Leads(WAITING_SECOND.(retired := []), Respond(ResponseUnder("to the first"), 7), last)
    ensures 1 in last.replies && last.replies[1] == Answered("to the first")
  {
    assert Without(["r"], "r") == [];
    last := Next(WAITING_SECOND.(retired := []), Respond(ResponseUnder("to the first"), 7));
  }

  /** A run in which an id is used again after its first call timed out: the response to the second call,
      which comes first, is swallowed in place of the late one, and the late one answers the second call. */
  lemma LateResponseCanReachALaterCall() returns (bs: seq<Broker>, es: seq<Event>)
    ensures Run(bs, es) && |es| == 6
    ensures es[4] == Respond(ResponseUnder("to the second"), 6) && es[5] == Respond(ResponseUnder("to the first"), 7)
    ensures 1 in bs[6].replies && bs[6].replies[1] == Answered("to the first")
  {
    FirstWaits();
    FirstTimesOut();
    SecondWaits();
    var last := SecondIsAnswered();
    bs := [START, START.(operations := {"o"}), WAITING_FIRST, TIMED_OUT, WAITING_SECOND,
      WAITING_SECOND.(retired := []), last];
    es := [Begin("o"), Offer(FIRST, 0, false), Expire(5, ["r"]), Offer(SECOND, 5, false),
      Respond(ResponseUnder("to the second"), 6), Respond(ResponseUnder("to the first"), 7)];
    forall i | 0 <= i < 6 ensures Leads(bs[i], es[i], bs[i + 1]) && Happens(bs, es, i) {
    }
  }
}
