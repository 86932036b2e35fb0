/** The life of a request's token over every run: exactly when it is cancelled, when it is disconnected
    and until when either can still happen. */
module CancellationLaws {
  import opened BoundedQueue
  import opened Cancellation

  /** Position `n` holds the first active request with this id. */
  predicate IsFirst(active: seq<Request>, id: string, n: nat) {
    n < |active| && active[n].id == id && forall m :: 0 <= m < n ==> active[m].id != id
  }

  lemma FirstActiveIsFirst(active: seq<Request>, id: string)
    ensures FirstActive(active, id) < |active| <==> exists i :: 0 <= i < |active| && active[i].id == id
    ensures forall n: nat :: IsFirst(active, id, n) <==> n < |active| && n == FirstActive(active, id)
  {
  }

  // ---- One event ----

  /** A cancellation marks the token of the first active request with its id and nothing else; without
      such a request it only enters the queue. */
  lemma RecordLaw(r: Requests, id: string)
    ensures forall n: nat :: IsFirst(r.active, id, n) ==>
      After(r, Record(id)) == Requests(r.active, r.pending, r.tokens[r.active[n].token := Cancelled])
    ensures (forall i :: 0 <= i < |r.active| ==> r.active[i].id != id) ==>
      After(r, Record(id)) == Requests(r.active, Inserted(r.pending, id), r.tokens)
  {
    FirstActiveIsFirst(r.active, id);
  }

  predicate InList(active: seq<Request>, t: nat) { exists n :: 0 <= n < |active| && active[n].token == t }

  predicate Underway(r: Requests, t: nat) { InList(r.active, t) }

  lemma {:induction false} AllDisconnectedAt(tokens: map<nat, TokenState>, active: seq<Request>)
    ensures var after := AllDisconnected(tokens, active);
      && after.Keys == tokens.Keys
      && forall t :: t in tokens ==>
           after[t] == if InList(active, t) && tokens[t] == Running then Disconnected else tokens[t]
  {
    if active != [] {
      var front, last := active[..|active| - 1], active[|active| - 1];
      AllDisconnectedAt(tokens, front);
      forall t ensures InList(active, t) <==> InList(front, t) || last.token == t {
        InListOneMore(front, last, active, t);
      }
    }
  }

  lemma InListOneMore(front: seq<Request>, last: Request, active: seq<Request>, t: nat)
    requires active == front + [last]
    ensures InList(active, t) <==> InList(front, t) || last.token == t
  {
    assert active[|front|] == last;
    if InList(front, t) {
      var n :| 0 <= n < |front| && front[n].token == t;
      assert active[n] == front[n];
    }
  }

  /** A disconnect marks exactly the running tokens of the requests under way. */
  lemma DisconnectLaw(r: Requests)
    ensures var r' := After(r, CancelAll);
      && r'.active == r.active && r'.pending == r.pending && r'.tokens.Keys == r.tokens.Keys
      && forall t :: t in r.tokens ==>
           r'.tokens[t] == if Underway(r, t) && r.tokens[t] == Running then Disconnected else r.tokens[t]
  {
    AllDisconnectedAt(r.tokens, r.active);
  }

  // ---- Every run ----

  /** Each request that begins gets a new token. */
  predicate FreshTokens(es: seq<Event>) {
    forall i, j :: 0 <= i < j < |es| && es[i].Activate? && es[j].Activate? ==> es[i].token != es[j].token
  }

  /** Event `j` is a cancellation that meets the request of token `t`. */
  ghost predicate Meets(rs: seq<Requests>, es: seq<Event>, j: nat, t: nat)
    requires j < |es| && |rs| == |es| + 1
  {
    es[j].Record? && exists n: nat :: IsFirst(rs[j].active, es[j].id, n) && rs[j].active[n].token == t
  }

  /** Event `j` ends the request of token `t`. */
  ghost predicate Ends(rs: seq<Requests>, es: seq<Event>, j: nat, t: nat)
    requires j < |es| && |rs| == |es| + 1
  {
    es[j].Clear? && exists n: nat :: IsFirst(rs[j].active, es[j].id, n) && rs[j].active[n].token == t
  }

  ghost predicate MetBetween(rs: seq<Requests>, es: seq<Event>, i: nat, k: nat, t: nat)
    requires k <= |es| && |rs| == |es| + 1
  {
    exists j: nat :: i < j < k && Meets(rs, es, j, t)
  }

  ghost predicate EndedBetween(rs: seq<Requests>, es: seq<Event>, i: nat, k: nat, t: nat)
    requires k <= |es| && |rs| == |es| + 1
  {
    exists j: nat :: i < j < k && Ends(rs, es, j, t)
  }

  /** Event `j` is a disconnect that finds the request of token `t` under way. */
  predicate Drops(rs: seq<Requests>, es: seq<Event>, j: nat, t: nat)
    requires j < |es| && |rs| == |es| + 1
  {
    es[j].CancelAll? && Underway(rs[j], t)
  }

  ghost predicate DroppedBetween(rs: seq<Requests>, es: seq<Event>, i: nat, k: nat, t: nat)
    requires k <= |es| && |rs| == |es| + 1
  {
    exists j: nat :: i < j < k && Drops(rs, es, j, t)
  }

  lemma TokenStep(rs: seq<Requests>, es: seq<Event>, k: nat, t: nat)
    requires Run(rs, es) && k < |es| && t in rs[k].tokens && (es[k].Activate? ==> es[k].token != t)
    ensures t in rs[k + 1].tokens
    ensures rs[k + 1].tokens[t] ==
      if Meets(rs, es, k, t) then Cancelled
      else if Drops(rs, es, k, t) then TokenAfter(rs[k].tokens[t], DisconnectIt)
      else rs[k].tokens[t]
  {
    assert Happens(rs, es, k);
    match es[k]
    case Record(id) => FirstActiveIsFirst(rs[k].active, id);
    case CancelAll => DisconnectLaw(rs[k]);
    case _ =>
  }

  lemma OneMoreEvent(rs: seq<Requests>, es: seq<Event>, i: nat, k: nat, t: nat)
    requires i < k < |es| && |rs| == |es| + 1
    ensures MetBetween(rs, es, i, k + 1, t) <==> MetBetween(rs, es, i, k, t) || Meets(rs, es, k, t)
    ensures DroppedBetween(rs, es, i, k + 1, t) <==> DroppedBetween(rs, es, i, k, t) || Drops(rs, es, k, t)
    ensures EndedBetween(rs, es, i, k + 1, t) <==> EndedBetween(rs, es, i, k, t) || Ends(rs, es, k, t)
  {
  }

  /** From the moment its request begins, a token is cancelled exactly if a cancellation was waiting for the
      request or one has met it since; it is disconnected exactly if that is not so and a disconnect found
      the request under way. */
  lemma {:induction false} TokenLife(rs: seq<Requests>, es: seq<Event>, i: nat, k: nat)
    requires Run(rs, es) && FreshTokens(es) && i < k <= |es| && es[i].Activate?
    ensures var t := es[i].token;
      var cancelled := es[i].id in rs[i].pending || MetBetween(rs, es, i, k, t);
      && t in rs[k].tokens
      && (rs[k].tokens[t].Cancelled? <==> cancelled)
      && (rs[k].tokens[t].Disconnected? <==> !cancelled && DroppedBetween(rs, es, i, k, t))
  {
    var t := es[i].token;
    if k == i + 1 {
      assert Happens(rs, es, i);
    } else {
      TokenLife(rs, es, i, k - 1);
      TokenStep(rs, es, k - 1, t);
      OneMoreEvent(rs, es, i, k - 1, t);
    }
  }

  predicate DistinctTokens(active: seq<Request>) {
    forall m, n :: 0 <= m < n < |active| ==> active[m].token != active[n].token
  }

  /** Before event `k`, each active request began at some event, and no two share a token. */
  ghost predicate ActiveOk(r: Requests, es: seq<Event>, k: nat)
    requires k <= |es|
  {
    && (forall n :: 0 <= n < |r.active| ==> Began(es, k, r.active[n]))
    && DistinctTokens(r.active)
  }

  ghost predicate Began(es: seq<Event>, k: nat, q: Request)
    requires k <= |es|
  {
    exists j: nat :: j < k && es[j] == Activate(q.id, q.token)
  }

  lemma BeganStays(es: seq<Event>, k: nat, q: Request)
    requires k < |es|
    ensures Began(es, k, q) ==> Began(es, k + 1, q)
    ensures es[k] == Activate(q.id, q.token) ==> Began(es, k + 1, q)
  {
  }

  lemma ActiveStep(rs: seq<Requests>, es: seq<Event>, k: nat)
    requires Run(rs, es) && FreshTokens(es) && k < |es| && ActiveOk(rs[k], es, k)
    ensures ActiveOk(rs[k + 1], es, k + 1)
  {
    assert Happens(rs, es, k);
    var active, active' := rs[k].active, rs[k + 1].active;
    forall n | 0 <= n < |active'| ensures Began(es, k + 1, active'[n]) {
      BeganStays(es, k, active'[n]);
      assert active'[n] in active || es[k] == Activate(active'[n].id, active'[n].token);
    }
  }

  lemma {:induction false} ActiveStaysOk(rs: seq<Requests>, es: seq<Event>, k: nat)
    requires Run(rs, es) && FreshTokens(es) && k <= |es|
    ensures ActiveOk(rs[k], es, k)
  {
    if k > 0 {
      ActiveStaysOk(rs, es, k - 1);
      ActiveStep(rs, es, k - 1);
    }
  }

  lemma InListOneLess(active: seq<Request>, n: nat, t: nat)
    requires DistinctTokens(active) && n < |active|
    ensures InList(active[..n] + active[n + 1..], t) <==> InList(active, t) && active[n].token != t
  {
    var rest := active[..n] + active[n + 1..];
    if InList(active, t) && active[n].token != t {
      var m :| 0 <= m < |active| && active[m].token == t;
      assert rest[if m < n then m else m - 1] == active[m];
    }
  }

  lemma UnderwayStep(rs: seq<Requests>, es: seq<Event>, k: nat, t: nat)
    requires Run(rs, es) && k < |es| && ActiveOk(rs[k], es, k) && (es[k].Activate? ==> es[k].token != t)
    ensures Underway(rs[k + 1], t) <==> Underway(rs[k], t) && !Ends(rs, es, k, t)
  {
    assert Happens(rs, es, k);
    var active, active' := rs[k].active, rs[k + 1].active;
    match es[k]
    case Activate(id, token) =>
      InListOneMore(active, Request(id, token), active', t);
    case Clear(id) =>
      FirstActiveIsFirst(active, id);
      var n := FirstActive(active, id);
      if n < |active| { InListOneLess(active, n, t); }
    case _ =>
  }

  /** A request is under way from its beginning until the event that ends it. */
  lemma {:induction false} UnderwayIff(rs: seq<Requests>, es: seq<Event>, i: nat, k: nat)
    requires Run(rs, es) && FreshTokens(es) && i < k <= |es| && es[i].Activate?
    ensures Underway(rs[k], es[i].token) <==> !EndedBetween(rs, es, i, k, es[i].token)
  {
    var t := es[i].token;
    if k == i + 1 {
      assert Happens(rs, es, i);
      assert rs[k].active[|rs[i].active|] == Request(es[i].id, t);
    } else {
      UnderwayIff(rs, es, i, k - 1);
      ActiveStaysOk(rs, es, k - 1);
      UnderwayStep(rs, es, k - 1, t);
      OneMoreEvent(rs, es, i, k - 1, t);
    }
  }

  /** Once its request has ended, a token keeps its state. */
  lemma EndedTokenIsSettled(rs: seq<Requests>, es: seq<Event>, i: nat, k: nat)
    requires Run(rs, es) && FreshTokens(es) && i < k < |es| && es[i].Activate?
    requires EndedBetween(rs, es, i, k, es[i].token)
    ensures es[i].token in rs[k].tokens && es[i].token in rs[k + 1].tokens
    ensures rs[k + 1].tokens[es[i].token] == rs[k].tokens[es[i].token]
  {
    UnderwayIff(rs, es, i, k);
    TokenLife(rs, es, i, k);
    TokenStep(rs, es, k, es[i].token);
  }
}
