/** Cancelling requests over the standard streams: tokens, requests under way, and cancellations that
    arrived before their request. */
module Cancellation {
  import opened BoundedQueue

  // ---- Tokens ----

  datatype TokenState = Running | Cancelled | Disconnected

  class CancellationToken {
    var state: TokenState

    constructor ()
      ensures state == Running
    {
      state := Running;
    }

    method Cancel()
      modifies this
      ensures state == TokenAfter(old(state), CancelIt)
    {
      state := Cancelled;
    }

    /** Compare and exchange: only a running token is marked. */
    method Disconnect()
      modifies this
      ensures state == TokenAfter(old(state), DisconnectIt)
    {
      if state == Running {
        state := Disconnected;
      }
    }
  }

  datatype TokenOp = CancelIt | DisconnectIt

  function TokenAfter(s: TokenState, op: TokenOp): TokenState {
    if op.CancelIt? then Cancelled else if s.Running? then Disconnected else s
  }

  function TokenAfterAll(ops: seq<TokenOp>): TokenState {
    if ops == [] then Running else TokenAfter(TokenAfterAll(ops[..|ops| - 1]), ops[|ops| - 1])
  }

  /** Whatever order the threads come in, an explicit cancellation wins over a disconnect. */
  lemma {:induction false} CancelWins(ops: seq<TokenOp>)
    ensures TokenAfterAll(ops).Cancelled? <==> CancelIt in ops
    ensures TokenAfterAll(ops).Disconnected? <==> DisconnectIt in ops && CancelIt !in ops
  {
    if ops != [] {
      var front, last := ops[..|ops| - 1], ops[|ops| - 1];
      CancelWins(front);
      OpsOfLonger(ops, front, last);
    }
  }

  lemma OpsOfLonger(ops: seq<TokenOp>, front: seq<TokenOp>, last: TokenOp)
    requires ops == front + [last]
    ensures forall op :: op in ops <==> op in front || op == last
  {
  }

  // ---- Requests under way ----

  datatype Request = Request(id: string, token: nat)

  /** Tokens are named by numbers; `tokens` holds the state of each. */
  datatype Requests = Requests(active: seq<Request>, pending: seq<string>, tokens: map<nat, TokenState>)

  predicate IsActive(r: Requests, id: string) { exists i :: 0 <= i < |r.active| && r.active[i].id == id }

  /** The first active request with this id. */
  function FirstActive(active: seq<Request>, id: string): (n: nat)
    ensures n <= |active| && (forall i :: 0 <= i < n ==> active[i].id != id)
    ensures n < |active| ==> active[n].id == id
  {
    if active == [] || active[0].id == id then 0 else 1 + FirstActive(active[1..], id)
  }

  datatype Event =
    | Activate(id: string, token: nat)
    | Record(id: string)
    | Clear(id: string)
    | CancelAll

  function After(r: Requests, e: Event): Requests {
    match e
    case Activate(id, token) =>
      Requests(r.active + [Request(id, token)], Without(r.pending, id),
        r.tokens[token := if id in r.pending then Cancelled else Running])
    case Record(id) =>
      var n := FirstActive(r.active, id);
      if n < |r.active| then r.(tokens := r.tokens[r.active[n].token := Cancelled])
        else r.(pending := Inserted(r.pending, id))
    case Clear(id) =>
      var n := FirstActive(r.active, id);
      if n < |r.active| then r.(active := r.active[..n] + r.active[n + 1..]) else r
    case CancelAll => r.(tokens := AllDisconnected(r.tokens, r.active))
  }

  /** The connection is gone: every request under way is told, unless it was cancelled before. */
  function AllDisconnected(tokens: map<nat, TokenState>, active: seq<Request>): map<nat, TokenState> {
    if active == [] then tokens
    else
      var earlier, t := AllDisconnected(tokens, active[..|active| - 1]), active[|active| - 1].token;
      if t in earlier then earlier[t := TokenAfter(earlier[t], DisconnectIt)] else earlier
  }

  class ActiveRequestCancellation {
    var active: seq<Request>
    var pending: seq<string>
    var tokens: map<nat, TokenState>

    function View(): Requests
      reads this
    {
      Requests(active, pending, tokens)
    }

    constructor ()
      ensures View() == NO_REQUESTS
    {
      active, pending, tokens := [], [], map[];
    }

    method FindActive(id: string) returns (n: nat)
      ensures n == FirstActive(active, id)
    {
      n := 0;
      while n < |active| && active[n].id != id
        invariant n <= |active| && FirstActive(active, id) == n + FirstActive(active[n..], id)
      {
        assert active[n..][1..] == active[n + 1..];
        n := n + 1;
      }
    }

    /** A request begins, with a new token; it may have been cancelled already. */
    method ActivateRequest(id: string, token: nat)
      modifies this
      ensures View() == After(old(View()), Activate(id, token))
    {
      tokens := tokens[token := Running];
      var rest, found := RemovePendingId(pending, id);
      pending := rest;
      if found {
        tokens := tokens[token := Cancelled];
      }
      active := active + [Request(id, token)];
    }

    /** A cancellation: true if it met its request. */
    method RecordOrCancel(id: string) returns (met: bool)
      modifies this
      ensures View() == After(old(View()), Record(id)) && met == (FirstActive(old(active), id) < |old(active)|)
    {
      var n := FindActive(id);
      if n < |active| {
        tokens := tokens[active[n].token := Cancelled];
        return true;
      }
      pending := InsertPendingId(pending, id);
      return false;
    }

    method ClearRequest(id: string)
      modifies this
      ensures View() == After(old(View()), Clear(id))
    {
      var n := FindActive(id);
      if n < |active| {
        active := active[..n] + active[n + 1..];
      }
    }

    method DisconnectAll()
      modifies this
      ensures View() == After(old(View()), CancelAll)
    {
      for i := 0 to |active|
        invariant active == old(active) && pending == old(pending)
        invariant tokens == AllDisconnected(old(tokens), active[..i])
      {
        assert active[..i + 1][..i] == active[..i];
        var t := active[i].token;
        if t in tokens {
          tokens := tokens[t := TokenAfter(tokens[t], DisconnectIt)];
        }
      }
      assert active[..|active|] == active;
    }
  }

  const NO_REQUESTS := Requests([], [], map[])

  // ---- Runs ----

  predicate Happens(rs: seq<Requests>, es: seq<Event>, i: nat)
    requires i < |es| && |rs| == |es| + 1
  {
    rs[i + 1] == After(rs[i], es[i])
  }

  ghost predicate Run(rs: seq<Requests>, es: seq<Event>) {
    |rs| == |es| + 1 && rs[0] == NO_REQUESTS && forall i :: 0 <= i < |es| ==> Happens(rs, es, i)
  }

  lemma {:induction false} QueueStaysOk(rs: seq<Requests>, es: seq<Event>, k: nat)
    requires Run(rs, es) && k < |rs|
    ensures QueueOk(rs[k].pending)
  {
    if k > 0 {
      QueueStaysOk(rs, es, k - 1);
      assert Happens(rs, es, k - 1);
      var e := es[k - 1];
      if e.Record? {
        InsertedKeeps(rs[k - 1].pending, e.id);
      } else if e.Activate? {
        WithoutContents(rs[k - 1].pending, e.id);
      }
    }
  }

  /** What an event does to the queue: a cancellation that met no request, or a request that begins. */
  function QueueEvents(rs: seq<Requests>, es: seq<Event>, lo: nat, hi: nat): seq<QueueEvent>
    requires lo <= hi <= |es| && |rs| == |es| + 1
    decreases hi
  {
    if hi == lo then []
    else
      var e, earlier := es[hi - 1], QueueEvents(rs, es, lo, hi - 1);
      if e.Activate? then earlier + [Remove(e.id)]
      else if e.Record? && !IsActive(rs[hi - 1], e.id) then earlier + [Insert(e.id)]
      else earlier
  }

  lemma {:induction false} QueueFollows(rs: seq<Requests>, es: seq<Event>, lo: nat, hi: nat)
    requires Run(rs, es) && lo <= hi <= |es|
    ensures rs[hi].pending == QueueAfterAll(rs[lo].pending, QueueEvents(rs, es, lo, hi))
    decreases hi
  {
    if lo < hi {
      QueueFollows(rs, es, lo, hi - 1);
      assert Happens(rs, es, hi - 1);
      var e, earlier := es[hi - 1], QueueEvents(rs, es, lo, hi - 1);
      if e.Activate? {
        assert (earlier + [Remove(e.id)])[..|earlier|] == earlier;
      } else if e.Record? && !IsActive(rs[hi - 1], e.id) {
        assert (earlier + [Insert(e.id)])[..|earlier|] == earlier;
      }
    }
  }

  lemma {:induction false} QueueEventsAreOthers(rs: seq<Requests>, es: seq<Event>, lo: nat, hi: nat, id: string)
    requires lo <= hi <= |es| && |rs| == |es| + 1
    requires forall j :: lo <= j < hi && (es[j].Record? || es[j].Activate?) ==> es[j].id != id
    ensures forall e :: e in QueueEvents(rs, es, lo, hi) ==> e.id != id
    decreases hi
  {
    if lo < hi {
      QueueEventsAreOthers(rs, es, lo, hi - 1, id);
    }
  }

  /** A cancellation that came before its request cancels it, exactly if there were never 64 other
      cancellations waiting that came after it. */
  lemma EarlyCancelIff(rs: seq<Requests>, es: seq<Event>, i: nat, k: nat, id: string)
    requires Run(rs, es) && i < k < |es|
    requires es[i] == Record(id) && !IsActive(rs[i], id) && es[k].Activate? && es[k].id == id
    requires forall j :: i < j < k && (es[j].Record? || es[j].Activate?) ==> es[j].id != id
    ensures es[k].token in rs[k + 1].tokens
    ensures rs[k + 1].tokens[es[k].token] == if NeverCrowded(QueueEvents(rs, es, i + 1, k)) then Cancelled else Running
  {
    QueueStaysOk(rs, es, i);
    assert Happens(rs, es, i) && Happens(rs, es, k);
    assert rs[i + 1].pending == Inserted(rs[i].pending, id);
    QueueFollows(rs, es, i + 1, k);
    QueueEventsAreOthers(rs, es, i + 1, k, id);
    StaysIff(rs[i].pending, id, QueueEvents(rs, es, i + 1, k));
  }
}
