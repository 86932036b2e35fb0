/** What a refresh leaves in the cache: for each row, exactly which scan of which target decides it. */
module RefreshLaws {
  import opened Options
  import opened Status
  import opened StatusLaws
  import opened StatusTheorems

  // ---- Which targets are scanned ----

  function Clear(roots: seq<string>): Target -> bool { (t: Target) => !InsideBoundary(t.path, roots) }

  /** `chosen` lists, in order, the targets to keep; `at` says where each stands. */
  ghost predicate Chooses(chosen: seq<Target>, targets: seq<Target>, keep: Target -> bool, at: seq<nat>) {
    && |at| == |chosen|
    && (forall i, j :: 0 <= i < j < |at| ==> at[i] < at[j])
    && (forall i :: 0 <= i < |at| ==> at[i] < |targets| && targets[at[i]] == chosen[i] && keep(chosen[i]))
    && (forall k: nat :: k < |targets| && keep(targets[k]) ==> k in at)
  }

  lemma ChoosesOneMore(chosen: seq<Target>, targets: seq<Target>, keep: Target -> bool, at: seq<nat>, t: Target)
    requires Chooses(chosen, targets, keep, at)
    ensures keep(t) ==> Chooses(chosen + [t], targets + [t], keep, at + [|targets|])
    ensures !keep(t) ==> Chooses(chosen, targets + [t], keep, at)
  {
  }

  function Chosen(targets: seq<Target>, keep: Target -> bool): seq<Target> {
    if targets == [] then []
    else Chosen(targets[..|targets| - 1], keep) + if keep(targets[|targets| - 1]) then [targets[|targets| - 1]] else []
  }

  lemma {:induction false} ChosenInOrder(targets: seq<Target>, keep: Target -> bool) returns (at: seq<nat>)
    ensures Chooses(Chosen(targets, keep), targets, keep, at)
  {
    if targets == [] {
      at := [];
    } else {
      var n := |targets| - 1;
      var rest := ChosenInOrder(targets[..n], keep);
      ChoosesOneMore(Chosen(targets[..n], keep), targets[..n], keep, rest, targets[n]);
      assert targets == targets[..n] + [targets[n]];
      at := if keep(targets[n]) then rest + [n] else rest;
    }
  }

  lemma {:induction false} ActiveIsChosen(targets: seq<Target>, roots: seq<string>)
    ensures ActiveTargets(targets, roots) == Chosen(targets, Clear(roots))
  {
    if targets != [] {
      ActiveIsChosen(targets[..|targets| - 1], roots);
    }
  }

  /** The targets scanned are exactly those outside every boundary, in the order given. */
  lemma ActiveTargetsInOrder(targets: seq<Target>, roots: seq<string>) returns (at: seq<nat>)
    ensures Chooses(ActiveTargets(targets, roots), targets, Clear(roots), at)
  {
    ActiveIsChosen(targets, roots);
    at := ChosenInOrder(targets, Clear(roots));
  }

  lemma {:induction false} ScanPairs(active: seq<Target>, answers: seq<Option<Scan>>, n: nat, g: nat,
      roots: seq<string>, i: nat)
    requires i < n <= |active| && forall i :: 0 <= i < n ==> Answer(answers, i).Some?
    ensures FirstScans(active, answers, n, g, roots)[i]
         == (active[i], Prepared(Answer(answers, i).value.local, g, roots))
  {
    if i < n - 1 {
      ScanPairs(active, answers, n - 1, g, roots, i);
    }
  }

  // ---- Where each cached row comes from ----

  /** The artifact paths known once the first `n` scans are merged. */
  function Known(m: Merge, scans: Scans, n: nat): set<string>
    requires n <= |scans|
  {
    if n == 0 then m.artifacts else Known(m, scans, n - 1) + Artifacts(scans[n - 1].1)
  }

  predicate Holds(c: Cache, p: string, e: Entry) { p in c && c[p] == e }

  /** Row `e` enters at step `k`: it was cached (step 0), or scan `k - 1` shows it. */
  predicate Enters(m: Merge, scans: Scans, k: nat, p: string, e: Entry)
    requires k <= |scans|
  {
    if k == 0 then Holds(m.next, p, e)
    else
      var es := scans[k - 1].1;
      Shows(es, Known(m, scans, k), p) && ByPath(es)[p] == e && Projectable(e)
  }

  /** Scan `j` leaves row `e` alone: it shows nothing at `p`, its target does not cover the row, and no
      artifact known by then hides it. */
  predicate Passes(m: Merge, scans: Scans, j: nat, p: string, e: Entry)
    requires j < |scans|
  {
    var known := Known(m, scans, j + 1);
    !Shows(scans[j].1, known, p) && !Covers(scans[j].0, e) && Visible(e, known)
  }

  predicate Lasts(m: Merge, scans: Scans, k: nat, n: nat, p: string, e: Entry)
    requires n <= |scans|
  {
    k <= n && Enters(m, scans, k, p, e) && forall j :: k <= j < n ==> Passes(m, scans, j, p, e)
  }

  lemma MergeStep(m: Merge, scans: Scans, n: nat, p: string, e: Entry)
    requires n < |scans| && Keyed(m.next) && DistinctScans(scans)
    requires MergeScans(m, scans[..n]).artifacts == Known(m, scans, n)
    ensures var before, after := MergeScans(m, scans[..n]), MergeScans(m, scans[..n + 1]);
      && after.artifacts == Known(m, scans, n + 1)
      && (Holds(after.next, p, e) <==>
            Enters(m, scans, n + 1, p, e) || (Holds(before.next, p, e) && Passes(m, scans, n, p, e)))
  {
    assert scans[..n + 1][..n] == scans[..n];
    MergesStayKeyed(m, scans[..n]);
    MergeIsPointwise(MergeScans(m, scans[..n]), scans[n].0, scans[n].1);
  }

  ghost predicate Comes(m: Merge, scans: Scans, n: nat, p: string, e: Entry)
    requires n <= |scans|
  {
    exists k: nat :: Lasts(m, scans, k, n, p, e)
  }

  lemma ComesOneMore(m: Merge, scans: Scans, n: nat, p: string, e: Entry)
    requires n < |scans|
    ensures Comes(m, scans, n + 1, p, e) <==>
      Enters(m, scans, n + 1, p, e) || (Comes(m, scans, n, p, e) && Passes(m, scans, n, p, e))
  {
    if Comes(m, scans, n + 1, p, e) && !Enters(m, scans, n + 1, p, e) {
      ghost var k: nat :| Lasts(m, scans, k, n + 1, p, e);
      assert Lasts(m, scans, k, n, p, e);
    }
    if Enters(m, scans, n + 1, p, e) {
      assert Lasts(m, scans, n + 1, n + 1, p, e);
    }
    if Comes(m, scans, n, p, e) && Passes(m, scans, n, p, e) {
      ghost var k: nat :| Lasts(m, scans, k, n, p, e);
      assert Lasts(m, scans, k, n + 1, p, e);
    }
  }

  lemma ComesAtStart(m: Merge, scans: Scans, p: string, e: Entry)
    ensures Comes(m, scans, 0, p, e) <==> Holds(m.next, p, e)
  {
    assert Lasts(m, scans, 0, 0, p, e) <==> Holds(m.next, p, e);
  }

  /** After `n` scans: the artifact set is the known one, and the row is cached exactly if it comes. */
  ghost predicate Explained(m: Merge, scans: Scans, n: nat, p: string, e: Entry)
    requires n <= |scans|
  {
    var after := MergeScans(m, scans[..n]);
    after.artifacts == Known(m, scans, n) && (Holds(after.next, p, e) <==> Comes(m, scans, n, p, e))
  }

  lemma ExplainedOneMore(m: Merge, scans: Scans, n: nat, p: string, e: Entry)
    requires n < |scans| && Keyed(m.next) && DistinctScans(scans) && Explained(m, scans, n, p, e)
    ensures Explained(m, scans, n + 1, p, e)
  {
    MergeStep(m, scans, n, p, e);
    ComesOneMore(m, scans, n, p, e);
  }

  /** A row is cached after the merge exactly if it entered at some step and lasted from there on. */
  lemma {:induction false} MergeOrigin(m: Merge, scans: Scans, n: nat, p: string, e: Entry)
    requires n <= |scans| && Keyed(m.next) && DistinctScans(scans)
    ensures Explained(m, scans, n, p, e)
  {
    if n == 0 {
      ComesAtStart(m, scans, p, e);
    } else {
      MergeOrigin(m, scans, n - 1, p, e);
      ExplainedOneMore(m, scans, n - 1, p, e);
    }
  }

  // ---- The same, said of the reported rows ----

  function Reported(answers: seq<Option<Scan>>, i: nat): seq<Entry> {
    if Answer(answers, i).Some? then Answer(answers, i).value.local else []
  }

  /** No scan reports a path twice. */
  ghost predicate Tidy(active: seq<Target>, answers: seq<Option<Scan>>) {
    forall i :: 0 <= i < |active| ==> DistinctPaths(Reported(answers, i))
  }

  ghost predicate Lists(es: seq<Entry>, roots: seq<string>, x: string) {
    exists q :: Remains(q, es, roots) && x in q.conflictArtifacts
  }

  /** A row cached before, or one that remains of the first `n` scans, lists `x` as its artifact. */
  ghost predicate Listed(s: Session, answers: seq<Option<Scan>>, n: nat, x: string) {
    x in CacheArtifacts(s.local) || exists i: nat :: i < n && Lists(Reported(answers, i), s.boundaryRoots, x)
  }

  /** Scan `i` contributes row `r`: it remains, and no artifact list up to this scan hides it. */
  ghost predicate Contributes(s: Session, answers: seq<Option<Scan>>, i: nat, r: Entry) {
    Remains(r, Reported(answers, i), s.boundaryRoots) && !(Unversioned(r) && Listed(s, answers, i + 1, r.path))
  }

  /** Step 0 brings the row cached at `p`; step `k` the projectable row scan `k - 1` contributes there. */
  ghost predicate Brings(s: Session, answers: seq<Option<Scan>>, k: nat, p: string, e: Entry) {
    if k == 0 then Holds(s.local, p, e)
    else exists r :: Contributes(s, answers, k - 1, r) && r.path == p && Projectable(r) && e == At(r, s.nextGeneration)
  }

  /** Scan `j` leaves the row at `p` as it is: it contributes no row there, its target does not cover the
      row, and no artifact list up to this scan hides it. */
  ghost predicate Leaves(s: Session, t: Target, answers: seq<Option<Scan>>, j: nat, p: string, e: Entry) {
    && (forall r :: Contributes(s, answers, j, r) ==> r.path != p)
    && !Covers(t, e)
    && !(Unversioned(e) && Listed(s, answers, j + 1, e.path))
  }

  ghost predicate BringsForGood(s: Session, active: seq<Target>, answers: seq<Option<Scan>>, k: nat, p: string,
      e: Entry)
  {
    && k <= |active|
    && Brings(s, answers, k, p, e)
    && forall j :: k <= j < |active| ==> Leaves(s, active[j], answers, j, p, e)
  }

  function Start(s: Session): Merge { Merge(s.local, CacheArtifacts(s.local)) }

  function ScansOf(s: Session, active: seq<Target>, answers: seq<Option<Scan>>): (r: Scans)
    requires AllAnswered(active, answers)
    ensures |r| == |active|
  {
    PreparedScans(active, answers, s.nextGeneration, s.boundaryRoots)
  }

  lemma PreparedArtifactsIff(es: seq<Entry>, g: nat, roots: seq<string>, x: string)
    ensures x in Artifacts(Prepared(es, g, roots)) <==> Lists(es, roots, x)
  {
    if x in Artifacts(Prepared(es, g, roots)) {
      var e :| e in Prepared(es, g, roots) && x in e.conflictArtifacts;
      PreparedIff(es, g, roots, e);
    }
    if q :| Remains(q, es, roots) && x in q.conflictArtifacts {
      PreparedIff(es, g, roots, At(q, g));
      assert At(q, g) in Prepared(es, g, roots);
    }
  }

  lemma ScanAt(s: Session, active: seq<Target>, answers: seq<Option<Scan>>, i: nat)
    requires AllAnswered(active, answers) && i < |active|
    ensures ScansOf(s, active, answers)[i]
         == (active[i], Prepared(Reported(answers, i), s.nextGeneration, s.boundaryRoots))
  {
    ScanPairs(active, answers, |active|, s.nextGeneration, s.boundaryRoots, i);
  }

  predicate ListsAt(scans: Scans, i: nat, x: string)
    requires i < |scans|
  {
    x in Artifacts(scans[i].1)
  }

  lemma {:induction false} KnownUnion(m: Merge, scans: Scans, n: nat, x: string)
    requires n <= |scans|
    ensures x in Known(m, scans, n) <==> x in m.artifacts || exists i: nat :: i < n && ListsAt(scans, i, x)
  {
    if n > 0 {
      KnownUnion(m, scans, n - 1, x);
      assert x in Artifacts(scans[n - 1].1) <==> ListsAt(scans, n - 1, x);
    }
  }

  lemma ListsAtIff(s: Session, active: seq<Target>, answers: seq<Option<Scan>>, i: nat, x: string)
    requires AllAnswered(active, answers) && i < |active|
    ensures ListsAt(ScansOf(s, active, answers), i, x) <==> Lists(Reported(answers, i), s.boundaryRoots, x)
  {
    ScanAt(s, active, answers, i);
    PreparedArtifactsIff(Reported(answers, i), s.nextGeneration, s.boundaryRoots, x);
  }

  lemma KnownIff(s: Session, active: seq<Target>, answers: seq<Option<Scan>>, n: nat, x: string)
    requires AllAnswered(active, answers) && n <= |active|
    ensures x in Known(Start(s), ScansOf(s, active, answers), n) <==> Listed(s, answers, n, x)
  {
    var scans := ScansOf(s, active, answers);
    KnownUnion(Start(s), scans, n, x);
    forall i: nat | i < n ensures ListsAt(scans, i, x) <==> Lists(Reported(answers, i), s.boundaryRoots, x) {
      ListsAtIff(s, active, answers, i, x);
    }
  }

  /** A scan shows a row at `p` exactly if it contributes one, and it shows that one. */
  lemma ShowsIff(s: Session, active: seq<Target>, answers: seq<Option<Scan>>, i: nat, r: Entry)
    requires AllAnswered(active, answers) && i < |active| && DistinctPaths(Reported(answers, i))
    ensures var es := Prepared(Reported(answers, i), s.nextGeneration, s.boundaryRoots);
      var known := Known(Start(s), ScansOf(s, active, answers), i + 1);
      Contributes(s, answers, i, r) <==>
        Shows(es, known, r.path) && ByPath(es)[r.path] == At(r, s.nextGeneration) && r in Reported(answers, i)
  {
    var raw, g, roots := Reported(answers, i), s.nextGeneration, s.boundaryRoots;
    var es := Prepared(raw, g, roots);
    KnownIff(s, active, answers, i + 1, r.path);
    PreparedFacts(raw, g, roots);
    ByPathFinds(es);
    PreparedIff(raw, g, roots, At(r, g));
    if r in raw && At(r, g) in es {
      var q :| Remains(q, raw, roots) && At(r, g) == At(q, g);
      OneRowPerPath(raw, r, q);
    }
  }

  /** The row a scan shows at `p` is one it contributes. */
  lemma ShownIsContributed(s: Session, active: seq<Target>, answers: seq<Option<Scan>>, i: nat, p: string)
      returns (r: Entry)
    requires AllAnswered(active, answers) && i < |active| && DistinctPaths(Reported(answers, i))
    requires Shows(Prepared(Reported(answers, i), s.nextGeneration, s.boundaryRoots),
                   Known(Start(s), ScansOf(s, active, answers), i + 1), p)
    ensures Contributes(s, answers, i, r) && r.path == p
    ensures ByPath(Prepared(Reported(answers, i), s.nextGeneration, s.boundaryRoots))[p] == At(r, s.nextGeneration)
  {
    var raw, g, roots := Reported(answers, i), s.nextGeneration, s.boundaryRoots;
    var es := Prepared(raw, g, roots);
    ByPathFinds(es);
    PreparedIff(raw, g, roots, ByPath(es)[p]);
    r :| Remains(r, raw, roots) && ByPath(es)[p] == At(r, g);
    ShowsIff(s, active, answers, i, r);
  }

  lemma EnteringIsBrought(s: Session, active: seq<Target>, answers: seq<Option<Scan>>, i: nat, p: string, e: Entry)
    requires AllAnswered(active, answers) && i < |active| && DistinctPaths(Reported(answers, i))
    requires Enters(Start(s), ScansOf(s, active, answers), i + 1, p, e)
    ensures Brings(s, answers, i + 1, p, e)
  {
    ScanAt(s, active, answers, i);
    var r := ShownIsContributed(s, active, answers, i, p);
    assert Projectable(r);
  }

  lemma ContributedEnters(s: Session, active: seq<Target>, answers: seq<Option<Scan>>, i: nat, r: Entry)
    requires AllAnswered(active, answers) && i < |active| && DistinctPaths(Reported(answers, i))
    requires Contributes(s, answers, i, r) && Projectable(r)
    ensures Enters(Start(s), ScansOf(s, active, answers), i + 1, r.path, At(r, s.nextGeneration))
  {
    ScanAt(s, active, answers, i);
    ShowsIff(s, active, answers, i, r);
  }

  lemma BroughtEnters(s: Session, active: seq<Target>, answers: seq<Option<Scan>>, i: nat, p: string, e: Entry)
    requires AllAnswered(active, answers) && i < |active| && DistinctPaths(Reported(answers, i))
    requires Brings(s, answers, i + 1, p, e)
    ensures Enters(Start(s), ScansOf(s, active, answers), i + 1, p, e)
  {
    var r :| Contributes(s, answers, i, r) && r.path == p && Projectable(r) && e == At(r, s.nextGeneration);
    ContributedEnters(s, active, answers, i, r);
  }

  lemma EntersIff(s: Session, active: seq<Target>, answers: seq<Option<Scan>>, k: nat, p: string, e: Entry)
    requires AllAnswered(active, answers) && Tidy(active, answers) && k <= |active|
    ensures Enters(Start(s), ScansOf(s, active, answers), k, p, e) <==> Brings(s, answers, k, p, e)
  {
    if k > 0 {
      var i := k - 1;
      if Enters(Start(s), ScansOf(s, active, answers), i + 1, p, e) {
        EnteringIsBrought(s, active, answers, i, p, e);
      }
      if Brings(s, answers, i + 1, p, e) {
        BroughtEnters(s, active, answers, i, p, e);
      }
    }
  }

  lemma PassesIff(s: Session, active: seq<Target>, answers: seq<Option<Scan>>, j: nat, p: string, e: Entry)
    requires AllAnswered(active, answers) && Tidy(active, answers) && j < |active|
    ensures Passes(Start(s), ScansOf(s, active, answers), j, p, e) <==> Leaves(s, active[j], answers, j, p, e)
  {
    ScanAt(s, active, answers, j);
    KnownIff(s, active, answers, j + 1, e.path);
    var es := Prepared(Reported(answers, j), s.nextGeneration, s.boundaryRoots);
    if Shows(es, Known(Start(s), ScansOf(s, active, answers), j + 1), p) {
      var r := ShownIsContributed(s, active, answers, j, p);
    } else {
      forall r | Contributes(s, answers, j, r) ensures r.path != p {
        ShowsIff(s, active, answers, j, r);
      }
    }
  }

  lemma LastsIff(s: Session, active: seq<Target>, answers: seq<Option<Scan>>, k: nat, p: string, e: Entry)
    requires AllAnswered(active, answers) && Tidy(active, answers)
    ensures Lasts(Start(s), ScansOf(s, active, answers), k, |active|, p, e)
       <==> BringsForGood(s, active, answers, k, p, e)
  {
    if k <= |active| {
      EntersIff(s, active, answers, k, p, e);
      forall j | k <= j < |active|
        ensures Passes(Start(s), ScansOf(s, active, answers), j, p, e) <==> Leaves(s, active[j], answers, j, p, e)
      {
        PassesIff(s, active, answers, j, p, e);
      }
    }
  }

  lemma ScansAreDistinct(s: Session, active: seq<Target>, answers: seq<Option<Scan>>)
    requires AllAnswered(active, answers) && Tidy(active, answers)
    ensures DistinctScans(ScansOf(s, active, answers))
  {
    forall i | 0 <= i < |active| ensures DistinctPaths(ScansOf(s, active, answers)[i].1) {
      ScanAt(s, active, answers, i);
      PreparedFacts(Reported(answers, i), s.nextGeneration, s.boundaryRoots);
    }
  }

  lemma RefreshedIff(s: Session, active: seq<Target>, answers: seq<Option<Scan>>, p: string, e: Entry)
    requires Keyed(s.local) && AllAnswered(active, answers) && Tidy(active, answers)
    ensures Holds(RefreshedLocal(s.local, ScansOf(s, active, answers)), p, e)
       <==> exists k: nat :: BringsForGood(s, active, answers, k, p, e)
  {
    var scans := ScansOf(s, active, answers);
    assert scans[..|active|] == scans;
    ScansAreDistinct(s, active, answers);
    MergeOrigin(Start(s), scans, |active|, p, e);
    forall k: nat
      ensures Lasts(Start(s), scans, k, |active|, p, e) <==> BringsForGood(s, active, answers, k, p, e)
    {
      LastsIff(s, active, answers, k, p, e);
    }
  }

  lemma RefreshFrame(s: Session, targets: seq<Target>, answers: seq<Option<Scan>>, active: seq<Target>)
    requires active == ActiveTargets(targets, s.boundaryRoots)
    ensures var s' := Refresh(s, targets, answers);
      if AllAnswered(active, answers) then
        && SameButCaches(s, s') && s'.remote == s.remote && s'.nextGeneration == s.nextGeneration + 1
        && s'.local == RefreshedLocal(s.local, ScansOf(s, active, answers))
      else s' == s
  {
  }

  /** Exactly when a refresh that gets its answers leaves row `e` at `p`: some step brings it and every
      later scan leaves it. */
  ghost predicate RefreshKeeps(s: Session, active: seq<Target>, answers: seq<Option<Scan>>, p: string, e: Entry) {
    exists k: nat :: BringsForGood(s, active, answers, k, p, e)
  }

  lemma SessionIsKeyed(s: Session)
    requires SessionOk(s)
    ensures Keyed(s.local)
  {
  }

  /** A refresh with a failed scan changes nothing. Any other caches exactly those rows, and touches
      nothing but the local cache and the next generation. */
  ghost predicate RefreshMeans(s: Session, s': Session, active: seq<Target>, answers: seq<Option<Scan>>) {
    if AllAnswered(active, answers) then
      && SameButCaches(s, s') && s'.remote == s.remote && s'.nextGeneration == s.nextGeneration + 1
      && forall p, e :: Holds(s'.local, p, e) <==> RefreshKeeps(s, active, answers, p, e)
    else s' == s
  }

  lemma RefreshLaw(s: Session, targets: seq<Target>, answers: seq<Option<Scan>>, active: seq<Target>)
    requires SessionOk(s) && active == ActiveTargets(targets, s.boundaryRoots) && Tidy(active, answers)
    ensures RefreshMeans(s, Refresh(s, targets, answers), active, answers)
  {
    var s' := Refresh(s, targets, answers);
    RefreshFrame(s, targets, answers, active);
    SessionIsKeyed(s);
    if AllAnswered(active, answers) {
      forall p, e ensures Holds(s'.local, p, e) <==> RefreshKeeps(s, active, answers, p, e) {
        RefreshedIff(s, active, answers, p, e);
      }
    }
  }

  // ---- The three cases a client relies on ----

  ghost predicate Silent(answers: seq<Option<Scan>>, j: nat, p: string) {
    forall r :: r in Reported(answers, j) ==> r.path != p
  }

  /** No artifact list, cached or reported by any scan of the refresh, hides the row. */
  ghost predicate NeverHidden(s: Session, active: seq<Target>, answers: seq<Option<Scan>>, e: Entry) {
    Unversioned(e) ==> !Listed(s, answers, |active|, e.path)
  }

  lemma SilentLeaves(s: Session, active: seq<Target>, answers: seq<Option<Scan>>, j: nat, e: Entry)
    requires j < |active| && Silent(answers, j, e.path) && !Covers(active[j], e) && NeverHidden(s, active, answers, e)
    ensures Leaves(s, active[j], answers, j, e.path, e)
  {
  }

  /** A cached row that no target covers, no scan reports and no artifact list hides is unchanged. */
  lemma RefreshLeavesUntouched(s: Session, targets: seq<Target>, answers: seq<Option<Scan>>, active: seq<Target>,
      e: Entry)
    requires SessionOk(s) && active == ActiveTargets(targets, s.boundaryRoots) && Tidy(active, answers)
    requires Holds(s.local, e.path, e) && NeverHidden(s, active, answers, e)
    requires forall j :: 0 <= j < |active| ==> Silent(answers, j, e.path) && !Covers(active[j], e)
    ensures Holds(Refresh(s, targets, answers).local, e.path, e)
  {
    RefreshLaw(s, targets, answers, active);
    forall j | 0 <= j < |active| ensures Leaves(s, active[j], answers, j, e.path, e) {
      SilentLeaves(s, active, answers, j, e);
    }
    assert BringsForGood(s, active, answers, 0, e.path, e);
  }

  /** Every row that may be cached at `p` before scan `i` is one its target covers. */
  ghost predicate CoveredBefore(s: Session, t: Target, answers: seq<Option<Scan>>, i: nat, p: string) {
    && (p in s.local ==> Covers(t, s.local[p]))
    && forall j, r :: 0 <= j < i && r in Reported(answers, j) && r.path == p ==> Covers(t, r)
  }

  lemma StampIsNotCovered(t: Target, r: Entry, g: nat)
    ensures Covers(t, At(r, g)) <==> Covers(t, r)
  {
  }

  lemma BroughtIsCovered(s: Session, t: Target, answers: seq<Option<Scan>>, i: nat, k: nat, p: string, e: Entry)
    requires CoveredBefore(s, t, answers, i, p) && k <= i && Brings(s, answers, k, p, e)
    ensures Covers(t, e)
  {
    if k > 0 {
      var r :| Contributes(s, answers, k - 1, r) && r.path == p && Projectable(r) && e == At(r, s.nextGeneration);
      assert r in Reported(answers, k - 1);
      StampIsNotCovered(t, r, s.nextGeneration);
    }
  }

  /** A path whose rows target `i` covers, missing from its scan and all later ones, is gone. */
  lemma RefreshDropsMissing(s: Session, targets: seq<Target>, answers: seq<Option<Scan>>, active: seq<Target>,
      i: nat, p: string)
    requires SessionOk(s) && active == ActiveTargets(targets, s.boundaryRoots) && Tidy(active, answers)
    requires AllAnswered(active, answers) && i < |active| && CoveredBefore(s, active[i], answers, i, p)
    requires forall j :: i <= j < |active| ==> Silent(answers, j, p)
    ensures p !in Refresh(s, targets, answers).local
  {
    var s' := Refresh(s, targets, answers);
    if p in s'.local {
      var e := s'.local[p];
      RefreshLaw(s, targets, answers, active);
      NothingBringsMissing(s, active, answers, i, p, e);
    }
  }

  lemma BroughtLate(s: Session, active: seq<Target>, answers: seq<Option<Scan>>, i: nat, k: nat, p: string, e: Entry)
    requires BringsForGood(s, active, answers, k, p, e) && i < |active| && CoveredBefore(s, active[i], answers, i, p)
    ensures k > i
  {
    if k <= i {
      BroughtIsCovered(s, active[i], answers, i, k, p, e);
    }
  }

  lemma BroughtIsReported(s: Session, active: seq<Target>, answers: seq<Option<Scan>>, k: nat, p: string, e: Entry)
    requires BringsForGood(s, active, answers, k, p, e) && k > 0
    ensures !Silent(answers, k - 1, p)
  {
  }

  lemma NothingBringsMissing(s: Session, active: seq<Target>, answers: seq<Option<Scan>>, i: nat, p: string, e: Entry)
    requires i < |active| && CoveredBefore(s, active[i], answers, i, p)
    requires forall j :: i <= j < |active| ==> Silent(answers, j, p)
    ensures !RefreshKeeps(s, active, answers, p, e)
  {
    forall k: nat ensures !BringsForGood(s, active, answers, k, p, e) {
      if BringsForGood(s, active, answers, k, p, e) {
        BroughtLate(s, active, answers, i, k, p, e);
        BroughtIsReported(s, active, answers, k, p, e);
      }
    }
  }

  /** The last scan that reports a row has the last word on its path, unless a later target covers it. */
  ghost predicate LastWord(s: Session, active: seq<Target>, answers: seq<Option<Scan>>, i: nat, r: Entry) {
    && i < |active|
    && Remains(r, Reported(answers, i), s.boundaryRoots)
    && NeverHidden(s, active, answers, r)
    && (forall j :: i < j < |active| ==> Silent(answers, j, r.path) && !Covers(active[j], r))
  }

  lemma LastWordContributes(s: Session, active: seq<Target>, answers: seq<Option<Scan>>, i: nat, r: Entry)
    requires LastWord(s, active, answers, i, r)
    ensures Contributes(s, answers, i, r)
  {
  }

  lemma LastWordStays(s: Session, active: seq<Target>, answers: seq<Option<Scan>>, i: nat, r: Entry)
    requires LastWord(s, active, answers, i, r) && Projectable(r)
    ensures RefreshKeeps(s, active, answers, r.path, At(r, s.nextGeneration))
  {
    var e := At(r, s.nextGeneration);
    LastWordContributes(s, active, answers, i, r);
    forall j | i + 1 <= j < |active| ensures Leaves(s, active[j], answers, j, r.path, e) {
      StampIsNotCovered(active[j], r, s.nextGeneration);
      SilentLeaves(s, active, answers, j, e);
    }
    assert BringsForGood(s, active, answers, i + 1, r.path, e);
  }

  lemma LeftAt(s: Session, active: seq<Target>, answers: seq<Option<Scan>>, k: nat, j: nat, p: string, e: Entry)
    requires BringsForGood(s, active, answers, k, p, e) && k <= j < |active|
    ensures Leaves(s, active[j], answers, j, p, e)
  {
  }

  lemma BroughtAfter(s: Session, active: seq<Target>, answers: seq<Option<Scan>>, i: nat, k: nat, r: Entry, e: Entry)
    requires BringsForGood(s, active, answers, k, r.path, e) && i < |active| && Contributes(s, answers, i, r)
    ensures k > i
  {
    if k <= i {
      LeftAt(s, active, answers, k, i, r.path, e);
    }
  }

  lemma LastWordExcludes(s: Session, active: seq<Target>, answers: seq<Option<Scan>>, i: nat, r: Entry, e: Entry)
    requires Tidy(active, answers) && LastWord(s, active, answers, i, r) && RefreshKeeps(s, active, answers, r.path, e)
    ensures Projectable(r) && e == At(r, s.nextGeneration)
  {
    LastWordContributes(s, active, answers, i, r);
    var k: nat :| BringsForGood(s, active, answers, k, r.path, e);
    BroughtAfter(s, active, answers, i, k, r, e);
    BroughtIsReported(s, active, answers, k, r.path, e);
    assert k == i + 1;
    var q :| Contributes(s, answers, i, q) && q.path == r.path && Projectable(q) && e == At(q, s.nextGeneration);
    OneRowPerPath(Reported(answers, i), r, q);
  }

  /** Such a row ends up cached exactly if it is worth showing, stamped with the refresh's generation. */
  lemma RefreshStoresLast(s: Session, targets: seq<Target>, answers: seq<Option<Scan>>, active: seq<Target>,
      i: nat, r: Entry)
    requires SessionOk(s) && active == ActiveTargets(targets, s.boundaryRoots) && Tidy(active, answers)
    requires AllAnswered(active, answers) && LastWord(s, active, answers, i, r)
    ensures var local := Refresh(s, targets, answers).local;
      && (r.path in local <==> Projectable(r))
      && (r.path in local ==> local[r.path] == At(r, s.nextGeneration))
  {
    var local := Refresh(s, targets, answers).local;
    if r.path in local {
      RefreshLaw(s, targets, answers, active);
      LastWordExcludes(s, active, answers, i, r, local[r.path]);
    }
    if Projectable(r) {
      LastWordStays(s, active, answers, i, r);
      RefreshLaw(s, targets, answers, active);
    }
  }
}
