/** The bounded queue of ids in which the daemon remembers cancellations that came too early and requests
    whose response may come too late: no id twice, the newest 64 kept. */
module BoundedQueue {
  import opened Collections

  // ---- Insertion and removal ----

  const MAX_PENDING: nat := 64

  predicate Distinct(q: seq<string>) { forall i, j :: 0 <= i < j < |q| ==> q[i] != q[j] }

  predicate QueueOk(q: seq<string>) { Distinct(q) && |q| <= MAX_PENDING }

  /** The queue without the first entry that equals `id`. */
  function Without(q: seq<string>, id: string): (r: seq<string>)
    ensures |r| == if id in q then |q| - 1 else |q|
  {
    if q == [] then [] else if q[0] == id then q[1..] else [q[0]] + Without(q[1..], id)
  }

  function Newest(q: seq<string>): seq<string> { if |q| > MAX_PENDING then q[|q| - MAX_PENDING..] else q }

  function Inserted(q: seq<string>, id: string): seq<string> { Newest(Without(q, id) + [id]) }

  lemma {:induction false} WithoutSplits(a: seq<string>, id: string, b: seq<string>)
    requires id !in a
    ensures Without(a + [id] + b, id) == a + b
  {
    if a == [] {
      assert a + [id] + b == [id] + b && a + b == b;
    } else {
      assert a[0] in a && (a + [id] + b)[1..] == a[1..] + [id] + b;
      WithoutSplits(a[1..], id, b);
      assert [a[0]] + (a[1..] + b) == a + b;
    }
  }

  lemma {:induction false} WithoutAbsent(q: seq<string>, id: string)
    requires id !in q
    ensures Without(q, id) == q
  {
    if q != [] {
      assert q[0] in q;
      WithoutAbsent(q[1..], id);
    }
  }

  method RemovePendingId(q: seq<string>, id: string) returns (r: seq<string>, found: bool)
    ensures r == Without(q, id) && found == (id in q)
  {
    for i := 0 to |q|
      invariant id !in q[..i]
    {
      if q[i] == id {
        assert q == q[..i] + [id] + q[i + 1..];
        WithoutSplits(q[..i], id, q[i + 1..]);
        return q[..i] + q[i + 1..], true;
      }
    }
    assert q[..|q|] == q;
    WithoutAbsent(q, id);
    return q, false;
  }

  method InsertPendingId(q: seq<string>, id: string) returns (r: seq<string>)
    ensures r == Inserted(q, id)
  {
    var removed, _ := RemovePendingId(q, id);
    r := removed + [id];
    ghost var full := r;
    while |r| > MAX_PENDING
      invariant |r| <= |full| && r == full[|full| - |r|..]
      invariant if |full| > MAX_PENDING then |r| >= MAX_PENDING else r == full
    {
      r := r[1..];
    }
  }

  lemma PartsAreDistinct(before: seq<string>, id: string, behind: seq<string>)
    requires Distinct(before + [id] + behind)
    ensures Distinct(before) && Distinct(behind) && id !in before && id !in behind
    ensures forall x :: x in before ==> x !in behind
  {
    var q := before + [id] + behind;
    assert forall i :: 0 <= i < |before| ==> q[i] == before[i];
    assert forall i :: 0 <= i < |behind| ==> q[|before| + 1 + i] == behind[i];
    assert q[|before|] == id;
  }

  lemma JoinIsDistinct(a: seq<string>, b: seq<string>)
    requires Distinct(a) && Distinct(b) && forall x :: x in a ==> x !in b
    ensures Distinct(a + b)
  {
    forall i, j | 0 <= i < j < |a + b| ensures (a + b)[i] != (a + b)[j] {
      if i < |a| <= j {
        assert a[i] in a && b[j - |a|] in b;
      }
    }
  }

  /** Where an id is, removing it takes it and nothing else. */
  lemma WithoutContents(q: seq<string>, id: string)
    requires Distinct(q)
    ensures Distinct(Without(q, id))
    ensures forall x :: x in Without(q, id) <==> x in q && x != id
  {
    if id in q {
      var i :| 0 <= i < |q| && q[i] == id;
      var before, behind := q[..i], q[i + 1..];
      assert q == before + [id] + behind;
      PartsAreDistinct(before, id, behind);
      WithoutSplits(before, id, behind);
      JoinIsDistinct(before, behind);
    } else {
      WithoutAbsent(q, id);
    }
  }

  /** The queue never repeats an id and never holds more than its bound. */
  lemma InsertedKeeps(q: seq<string>, id: string)
    requires QueueOk(q)
    ensures QueueOk(Inserted(q, id)) && id in Inserted(q, id)
  {
    WithoutContents(q, id);
    var full := Without(q, id) + [id];
    assert Inserted(q, id)[|Inserted(q, id)| - 1] == id;
  }

  // ---- How long an id waits ----

  datatype QueueEvent = Insert(id: string) | Remove(id: string)

  function QueueAfter(q: seq<string>, e: QueueEvent): seq<string> {
    match e
    case Insert(id) => Inserted(q, id)
    case Remove(id) => Without(q, id)
  }

  /** The ids inserted after, and not taken out since. */
  function LaterAfter(later: set<string>, e: QueueEvent): set<string> {
    match e
    case Insert(id) => later + {id}
    case Remove(id) => later - {id}
  }

  ghost predicate Members(s: seq<string>, ids: set<string>) { forall x :: x in s <==> x in ids }

  lemma {:induction false} DistinctCount(s: seq<string>, ids: set<string>)
    requires Distinct(s) && Members(s, ids)
    ensures |s| == |ids|
  {
    if s == [] {
      assert ids == {};
    } else {
      assert s == [s[0]] + s[1..] && s[0] in s;
      assert s[0] !in s[1..];
      DistinctCount(s[1..], ids - {s[0]});
    }
  }

  lemma {:induction false} WithoutInFront(a: seq<string>, b: seq<string>, id: string)
    requires id in a
    ensures Without(a + b, id) == Without(a, id) + b
  {
    assert (a + b)[1..] == a[1..] + b && a == [a[0]] + a[1..];
    if a[0] != id {
      WithoutInFront(a[1..], b, id);
      assert [a[0]] + (Without(a[1..], id) + b) == [a[0]] + Without(a[1..], id) + b;
    }
  }

  lemma {:induction false} WithoutBehind(a: seq<string>, b: seq<string>, id: string)
    requires id !in a
    ensures Without(a + b, id) == a + Without(b, id)
  {
    if a == [] {
      assert a + b == b && a + Without(b, id) == Without(b, id);
    } else {
      assert a[0] in a && (a + b)[1..] == a[1..] + b;
      WithoutBehind(a[1..], b, id);
      assert [a[0]] + (a[1..] + Without(b, id)) == a + Without(b, id);
    }
  }

  /** `id` waits, with exactly the later ids behind it. */
  ghost predicate Waits(q: seq<string>, id: string, later: set<string>) {
    exists before, behind :: Cut(q, before, id, behind) && Members(behind, later)
  }

  predicate Cut(q: seq<string>, before: seq<string>, id: string, behind: seq<string>) { q == before + [id] + behind }

  lemma RemovalCuts(before: seq<string>, id: string, behind: seq<string>, x: string)
    requires Distinct(before + [id] + behind) && x != id
    ensures Without(before + [id] + behind, x) == Without(before, x) + [id] + Without(behind, x)
  {
    PartsAreDistinct(before, id, behind);
    if x in before {
      assert before + [id] + behind == before + ([id] + behind);
      WithoutInFront(before, [id] + behind, x);
      WithoutAbsent(behind, x);
      assert Without(before, x) + ([id] + behind) == Without(before, x) + [id] + behind;
    } else {
      WithoutBehind(before + [id], behind, x);
      WithoutAbsent(before, x);
    }
  }

  lemma RemovalLeavesWaiting(q: seq<string>, x: string, id: string, later: set<string>)
    requires QueueOk(q) && x != id && Waits(q, id, later)
    ensures Waits(Without(q, x), id, later - {x})
  {
    var before, behind :| Cut(q, before, id, behind) && Members(behind, later);
    PartsAreDistinct(before, id, behind);
    RemovalCuts(before, id, behind, x);
    WithoutContents(behind, x);
    assert Cut(Without(q, x), Without(before, x), id, Without(behind, x)) && Members(Without(behind, x), later - {x});
  }

  /** The newest 64 entries hold an entry exactly if fewer than 64 are behind it. */
  lemma NewestCuts(before: seq<string>, id: string, behind: seq<string>) returns (kept: seq<string>)
    requires id !in behind
    ensures |behind| < MAX_PENDING ==> Cut(Newest(before + [id] + behind), kept, id, behind)
    ensures |behind| >= MAX_PENDING ==> id !in Newest(before + [id] + behind)
  {
    var q := before + [id] + behind;
    var drop := if |q| > MAX_PENDING then |q| - MAX_PENDING else 0;
    kept := before[if drop <= |before| then drop else |before|..];
    if |behind| < MAX_PENDING {
      assert q[drop..] == kept + [id] + behind;
    } else {
      assert q[drop..] == behind[|behind| - MAX_PENDING..];
    }
  }

  lemma PushedBehind(behind: seq<string>, x: string, later: set<string>)
    requires Distinct(behind) && Members(behind, later)
    ensures Members(Without(behind, x) + [x], later + {x})
    ensures |Without(behind, x) + [x]| == |later + {x}|
  {
    WithoutContents(behind, x);
    JoinIsDistinct(Without(behind, x), [x]);
    DistinctCount(Without(behind, x) + [x], later + {x});
  }

  /** A newer id pushes a waiting one out exactly when it is the 64th behind it. */
  lemma InsertionPushesOutIff(q: seq<string>, x: string, id: string, later: set<string>)
    requires QueueOk(q) && x != id && Waits(q, id, later)
    ensures |later + {x}| < MAX_PENDING ==> Waits(Inserted(q, x), id, later + {x})
    ensures |later + {x}| >= MAX_PENDING ==> id !in Inserted(q, x)
  {
    var before, behind :| Cut(q, before, id, behind) && Members(behind, later);
    PartsAreDistinct(before, id, behind);
    RemovalCuts(before, id, behind, x);
    PushedBehind(behind, x, later);
    var front, back := Without(before, x), Without(behind, x) + [x];
    assert Without(q, x) + [x] == front + [id] + back;
    assert id !in back by { WithoutContents(behind, x); }
    var kept := NewestCuts(front, id, back);
  }

  function QueueAfterAll(q: seq<string>, es: seq<QueueEvent>): seq<string> {
    if es == [] then q else QueueAfter(QueueAfterAll(q, es[..|es| - 1]), es[|es| - 1])
  }

  function LaterAfterAll(es: seq<QueueEvent>): set<string> {
    if es == [] then {} else LaterAfter(LaterAfterAll(es[..|es| - 1]), es[|es| - 1])
  }

  /** Never 64 other ids at once behind the one that was inserted. */
  ghost predicate NeverCrowded(es: seq<QueueEvent>) {
    forall k :: 0 <= k <= |es| ==> |LaterAfterAll(es[..k])| < MAX_PENDING
  }

  lemma NeverCrowdedSplit(es: seq<QueueEvent>)
    requires es != []
    ensures NeverCrowded(es) <==> NeverCrowded(es[..|es| - 1]) && |LaterAfterAll(es)| < MAX_PENDING
  {
    var front := es[..|es| - 1];
    forall k | 0 <= k <= |front| ensures front[..k] == es[..k] {
    }
    assert es[..|es|] == es;
    if NeverCrowded(front) && |LaterAfterAll(es)| < MAX_PENDING {
      forall k | 0 <= k <= |es| ensures |LaterAfterAll(es[..k])| < MAX_PENDING {
        if k < |es| { assert front[..k] == es[..k]; }
      }
    }
    if NeverCrowded(es) {
      forall k | 0 <= k <= |front| ensures |LaterAfterAll(front[..k])| < MAX_PENDING {
        assert front[..k] == es[..k];
      }
    }
  }

  /** An id put in the queue is still there, after any events about other ids, exactly if there were
      never 64 others behind it at once. */
  lemma {:induction false} StaysIff(q: seq<string>, id: string, es: seq<QueueEvent>)
    requires QueueOk(q) && forall e :: e in es ==> e.id != id
    ensures QueueOk(QueueAfterAll(Inserted(q, id), es))
    ensures id in QueueAfterAll(Inserted(q, id), es) <==> NeverCrowded(es)
    ensures NeverCrowded(es) ==> Waits(QueueAfterAll(Inserted(q, id), es), id, LaterAfterAll(es))
  {
    if es == [] {
      InsertedKeeps(q, id);
      var r := Inserted(q, id);
      assert Cut(r, r[..|r| - 1], id, []) && Members([], {});
      assert es[..0] == [];
    } else {
      var front, e := es[..|es| - 1], es[|es| - 1];
      assert es == front + [e];
      StaysIff(q, id, front);
      NeverCrowdedSplit(es);
      var r := QueueAfterAll(Inserted(q, id), front);
      WithoutContents(r, e.id);
      if e.Insert? {
        InsertedKeeps(r, e.id);
      }
      if NeverCrowded(front) {
        if e.Insert? {
          InsertionPushesOutIff(r, e.id, id, LaterAfterAll(front));
        } else {
          RemovalLeavesWaiting(r, e.id, id, LaterAfterAll(front));
          WaitingCounts(Without(r, e.id), id, LaterAfterAll(es));
        }
      } else if e.Insert? {
        assert forall x :: x in Newest(Without(r, e.id) + [e.id]) ==> x in Without(r, e.id) + [e.id];
      }
    }
  }

  lemma WaitingCounts(q: seq<string>, id: string, later: set<string>)
    requires QueueOk(q) && Waits(q, id, later)
    ensures |later| < MAX_PENDING && id in q
  {
    var before, behind :| Cut(q, before, id, behind) && Members(behind, later);
    PartsAreDistinct(before, id, behind);
    DistinctCount(behind, later);
    assert q[|before|] == id;
  }

  /** With insertions only: an id is lost exactly when 64 distinct others came after it. */
  lemma {:induction false} LostIffCrowdedOut(q: seq<string>, id: string, others: seq<string>)
    requires QueueOk(q) && id !in others
    ensures id in QueueAfterAll(Inserted(q, id), Insertions(others)) <==> |set x | x in others| < MAX_PENDING
  {
    StaysIff(q, id, Insertions(others));
    LaterOfInsertions(others, |others|);
    assert others[..|others|] == others && Insertions(others)[..|others|] == Insertions(others);
    forall k | 0 <= k <= |others| ensures |LaterAfterAll(Insertions(others)[..k])| <= |set x | x in others| {
      LaterOfInsertions(others, k);
      SubsetIsSmaller((set x | x in others[..k]), (set x | x in others));
    }
  }

  function Insertions(ids: seq<string>): seq<QueueEvent> { seq(|ids|, i requires 0 <= i < |ids| => Insert(ids[i])) }

  lemma {:induction false} LaterOfInsertions(ids: seq<string>, k: nat)
    requires k <= |ids|
    ensures LaterAfterAll(Insertions(ids)[..k]) == set x | x in ids[..k]
  {
    if k > 0 {
      LaterOfInsertions(ids, k - 1);
      assert Insertions(ids)[..k][..k - 1] == Insertions(ids)[..k - 1];
      assert ids[..k] == ids[..k - 1] + [ids[k - 1]];
    }
  }

  // ---- Which ids a history leaves ----

  /** The events after the last insertion of this id. */
  function AfterLast(es: seq<QueueEvent>, id: string): seq<QueueEvent> {
    if es == [] || es[|es| - 1] == Insert(id) then [] else AfterLast(es[..|es| - 1], id) + [es[|es| - 1]]
  }

  predicate SplitAt(es: seq<QueueEvent>, before: seq<QueueEvent>, e: QueueEvent, after: seq<QueueEvent>) {
    es == before + [e] + after
  }

  lemma {:induction false} AfterLastSplits(es: seq<QueueEvent>, id: string) returns (before: seq<QueueEvent>)
    requires Insert(id) in es
    ensures SplitAt(es, before, Insert(id), AfterLast(es, id)) && Insert(id) !in AfterLast(es, id)
  {
    var front, last := es[..|es| - 1], es[|es| - 1];
    assert es == front + [last];
    if last == Insert(id) {
      before := front;
    } else {
      before := AfterLastSplits(front, id);
      assert before + [Insert(id)] + AfterLast(front, id) + [last]
        == before + [Insert(id)] + (AfterLast(front, id) + [last]);
    }
  }

  lemma {:induction false} QueueAfterBoth(q: seq<string>, a: seq<QueueEvent>, b: seq<QueueEvent>)
    ensures QueueAfterAll(q, a + b) == QueueAfterAll(QueueAfterAll(q, a), b)
  {
    if b == [] {
      assert a + b == a;
    } else {
      assert (a + b)[..|a + b| - 1] == a + b[..|b| - 1];
      QueueAfterBoth(q, a, b[..|b| - 1]);
    }
  }

  lemma QueueEventKeeps(q: seq<string>, e: QueueEvent)
    requires QueueOk(q)
    ensures QueueOk(QueueAfter(q, e))
    ensures forall x :: x in QueueAfter(q, e) ==> x in q || e == Insert(x)
    ensures e.Remove? ==> e.id !in QueueAfter(q, e)
  {
    WithoutContents(q, e.id);
    if e.Insert? {
      InsertedKeeps(q, e.id);
    }
  }

  lemma {:induction false} QueueStaysOkAfterAll(q: seq<string>, es: seq<QueueEvent>)
    requires QueueOk(q)
    ensures QueueOk(QueueAfterAll(q, es))
  {
    if es != [] {
      QueueStaysOkAfterAll(q, es[..|es| - 1]);
      QueueEventKeeps(QueueAfterAll(q, es[..|es| - 1]), es[|es| - 1]);
    }
  }

  /** Inserted, not removed since, and never 64 others behind it since. */
  ghost predicate Remains(es: seq<QueueEvent>, id: string) {
    Insert(id) in es && Remove(id) !in AfterLast(es, id) && NeverCrowded(AfterLast(es, id))
  }

  lemma RemainsIfUndisturbed(es: seq<QueueEvent>, id: string)
    requires Insert(id) in es && Remove(id) !in AfterLast(es, id)
    ensures id in QueueAfterAll([], es) <==> NeverCrowded(AfterLast(es, id))
  {
    var after := AfterLast(es, id);
    var before := AfterLastSplits(es, id);
    var q := QueueAfterAll([], before);
    QueueStaysOkAfterAll([], before);
    assert (before + [Insert(id)])[..|before|] == before;
    QueueAfterBoth([], before + [Insert(id)], after);
    forall e | e in after ensures e.id != id {
      assert e != Insert(id) && e != Remove(id);
    }
    StaysIff(q, id, after);
  }

  /** Exactly which ids are in the queue after any history. */
  lemma {:induction false} RemainsIff(es: seq<QueueEvent>, id: string)
    ensures id in QueueAfterAll([], es) <==> Remains(es, id)
  {
    if Insert(id) in es && Remove(id) !in AfterLast(es, id) {
      RemainsIfUndisturbed(es, id);
    } else if es != [] {
      var front, last := es[..|es| - 1], es[|es| - 1];
      assert es == front + [last];
      QueueStaysOkAfterAll([], front);
      QueueEventKeeps(QueueAfterAll([], front), last);
      if last != Remove(id) {
        RemainsIff(front, id);
      }
    }
  }
}
