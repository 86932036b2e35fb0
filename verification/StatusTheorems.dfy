/** What the status cache guarantees: its loops against a pointwise reading, its invariant over
    every run of a session, and the client that mirrors it from deltas. */
module StatusTheorems {
  import opened Options
  import opened Paths
  import opened Status

  // ---- Coverage, by components ----

  function Components(path: string): seq<string> {
    if Slashes(path) == "." then [] else Split(Slashes(path))
  }

  /** Reference reading of a target: a prefix of the row's components, at an allowed distance. */
  predicate CoversByComponents(t: Target, e: Entry) {
    var target, path := Components(t.path), Components(e.path);
    && target <= path
    && (|path| == |target| ||
        match t.depth
        case "files" => |path| == |target| + 1 && e.kind == "file"
        case "immediates" => |path| == |target| + 1
        case "infinity" => true
        case _ => false)
  }

  lemma CoverageIsByComponents(t: Target, e: Entry)
    ensures Covers(t, e) <==> CoversByComponents(t, e)
  {
    var target, path := Slashes(t.path), Slashes(e.path);
    OneComponent(path);
    if target != "." && path != "." {
      BelowByComponents(target, path);
    }
  }

  lemma BelowByComponents(target: string, path: string)
    ensures Split(target) <= Split(path) <==> path == target || target + "/" <= path
    ensures |Split(path)| == |Split(target)| && Split(target) <= Split(path) <==> path == target
    ensures target + "/" <= path ==>
              (|Split(path)| == |Split(target)| + 1 <==> '/' !in path[|target| + 1..])
  {
    var p, t := Split(path), Split(target);
    assert t < p <==> target + "/" <= path by {
      DescendantIsComponentPrefix(path, target);
      SlashPrefix(path, target);
    }
    assert t == p <==> path == target by { SplitIsInjective(path, target); }
    if target + "/" <= path { NextComponent(target, path); }
  }

  lemma NextComponent(target: string, path: string)
    requires target + "/" <= path
    ensures |Split(path)| == |Split(target)| + 1 <==> '/' !in path[|target| + 1..]
  {
    var rest := path[|target| + 1..];
    assert path == target + "/" + rest;
    SplitConcat(target, rest);
    OneComponent(rest);
  }

  lemma SlashPrefix(path: string, target: string)
    ensures target + "/" <= path <==> IsDescendant(path, target)
  {
    if IsDescendant(path, target) {
      assert path[..|target| + 1] == target + "/";
    }
  }

  lemma SplitIsInjective(a: string, b: string)
    ensures Split(a) == Split(b) <==> a == b
  {
    JoinSplit(a);
    JoinSplit(b);
  }

  // ---- Lists without repeated paths ----

  /** All rows by path. */
  function ByPath(es: seq<Entry>): Cache {
    if es == [] then map[] else ByPath(es[..|es| - 1])[es[|es| - 1].path := es[|es| - 1]]
  }

  lemma {:induction false} ByPathFinds(es: seq<Entry>)
    ensures ByPath(es).Keys == PathsOf(es)
    ensures forall p :: p in ByPath(es) ==> ByPath(es)[p].path == p && ByPath(es)[p] in es
    ensures DistinctPaths(es) ==> forall e :: e in es <==> e.path in ByPath(es) && ByPath(es)[e.path] == e
  {
    if es != [] {
      var front, last := es[..|es| - 1], es[|es| - 1];
      ByPathFinds(front);
      assert es == front + [last];
      assert PathsOf(es) == PathsOf(front) + {last.path};
    }
  }

  lemma {:induction false} FilterKeepsDistinct(es: seq<Entry>, keep: Entry -> bool)
    requires DistinctPaths(es)
    ensures DistinctPaths(Filter(es, keep))
  {
    if es != [] {
      var front, last := es[..|es| - 1], es[|es| - 1];
      FilterKeepsDistinct(front, keep);
      var r := Filter(front, keep);
      forall i | 0 <= i < |r| ensures r[i].path != last.path {
        assert r[i] in front;
      }
    }
  }

  lemma PreparedFacts(es: seq<Entry>, g: nat, roots: seq<string>)
    ensures DistinctPaths(es) ==> DistinctPaths(Bounded(es, g, roots)) && DistinctPaths(Prepared(es, g, roots))
    ensures forall e :: e in Bounded(es, g, roots) ==> e.generation == g && !InsideBoundary(e.path, roots)
    ensures forall e :: e in Prepared(es, g, roots) ==> e in Bounded(es, g, roots)
    ensures forall e :: e in Prepared(es, g, roots) ==> Visible(e, Artifacts(Prepared(es, g, roots)))
  {
    if DistinctPaths(es) {
      assert DistinctPaths(Stamped(es, g));
      FilterKeepsDistinct(Stamped(es, g), (e: Entry) => !InsideBoundary(e.path, roots));
      var bounded := Bounded(es, g, roots);
      FilterKeepsDistinct(bounded, (e: Entry) => Visible(e, Artifacts(bounded)));
      assert Prepared(es, g, roots) == Filter(bounded, (e: Entry) => Visible(e, Artifacts(bounded)));
    }
  }

  lemma {:induction false} LocalIndexIsPointwise(es: seq<Entry>)
    requires DistinctPaths(es)
    ensures LocalIndex(es) == map p | p in ByPath(es) && Projectable(ByPath(es)[p]) :: ByPath(es)[p]
  {
    if es != [] {
      var front, last := es[..|es| - 1], es[|es| - 1];
      LocalIndexIsPointwise(front);
      ByPathFinds(front);
      assert last.path !in ByPath(front);
    }
  }

  lemma {:induction false} RemoteIndexIsPointwise(es: seq<Entry>)
    requires DistinctPaths(es)
    ensures RemoteIndex(es) == map p | p in ByPath(es) && RemoteProjectable(ByPath(es)[p]) :: ByPath(es)[p]
  {
    if es != [] {
      var front, last := es[..|es| - 1], es[|es| - 1];
      RemoteIndexIsPointwise(front);
      ByPathFinds(front);
      assert last.path !in ByPath(front);
    }
  }

  lemma {:induction false} InsertedIsPointwise(c: Cache, es: seq<Entry>)
    requires DistinctPaths(es)
    ensures var b := ByPath(es);
            Inserted(c, es) == map p | p in c.Keys + b.Keys && (p in b ==> Projectable(b[p]))
                               :: if p in b then b[p] else c[p]
  {
    if es != [] {
      InsertedIsPointwise(c, es[..|es| - 1]);
    }
  }

  // ---- The merge loops, point by point ----

  predicate Keyed(c: Cache) { forall p :: p in c ==> c[p].path == p }

  /** What a scan shows at `p`, if anything, once hidden rows are dropped. */
  predicate Shows(es: seq<Entry>, artifacts: set<string>, p: string) {
    p in ByPath(es) && Visible(ByPath(es)[p], artifacts)
  }

  /** Does `p` stay cached without being shown by this scan? */
  predicate Survives(c: Cache, t: Target, artifacts: set<string>, p: string) {
    p in c && Visible(c[p], artifacts) && !Covers(t, c[p])
  }

  lemma ShownByPath(es: seq<Entry>, artifacts: set<string>)
    requires DistinctPaths(es)
    ensures var shown := Shown(es, artifacts);
            && DistinctPaths(shown)
            && PathsOf(shown) == ByPath(shown).Keys
            && ByPath(shown) == map p | p in ByPath(es) && Shows(es, artifacts, p) :: ByPath(es)[p]
  {
    var shown := Shown(es, artifacts);
    FilterKeepsDistinct(es, (e: Entry) => Visible(e, artifacts));
    ByPathFinds(es);
    ByPathFinds(shown);
    forall p | p in ByPath(es) && Shows(es, artifacts, p) ensures p in ByPath(shown) {
      assert ByPath(es)[p] in shown;
    }
  }

  lemma DropIsPointwise(c: Cache, t: Target, seen: set<string>)
    requires Keyed(c)
    ensures Dropped(c, t, seen) == map p | p in c && (p in seen || !Covers(t, c[p])) :: c[p]
  {
    var gone := set p | p in c && Covers(t, c[p]) && c[p].path !in seen :: c[p].path;
    forall p | p in c ensures p in gone <==> Covers(t, c[p]) && p !in seen {
      assert c[p].path == p;
    }
  }

  /** One scan, read point by point: a shown row decides its path; any other cached row stays
      exactly if it is visible and outside the target. */
  function MergedPointwise(m: Merge, t: Target, es: seq<Entry>): Cache {
    var artifacts := m.artifacts + Artifacts(es);
    map p | p in m.next.Keys + ByPath(es).Keys
            && (if Shows(es, artifacts, p) then Projectable(ByPath(es)[p])
                else Survives(m.next, t, artifacts, p))
         :: if Shows(es, artifacts, p) then ByPath(es)[p] else m.next[p]
  }

  lemma MergeIsPointwise(m: Merge, t: Target, es: seq<Entry>)
    requires DistinctPaths(es) && Keyed(m.next)
    ensures MergeScan(m, t, es) == Merge(MergedPointwise(m, t, es), m.artifacts + Artifacts(es))
    ensures Keyed(MergeScan(m, t, es).next)
  {
    var artifacts := m.artifacts + Artifacts(es);
    var incoming := Shown(es, artifacts);
    var b := ByPath(incoming);
    ShownByPath(es, artifacts);
    ByPathFinds(incoming);
    var kept := Retained(m.next, artifacts);
    InsertedIsPointwise(kept, incoming);
    DropIsPointwise(Inserted(kept, incoming), t, b.Keys);
    LaidOver(m, t, es, artifacts, b);
  }

  lemma LaidOver(m: Merge, t: Target, es: seq<Entry>, artifacts: set<string>, b: Cache)
    requires Keyed(m.next) && Keyed(b) && artifacts == m.artifacts + Artifacts(es)
    requires b == map p | p in ByPath(es) && Shows(es, artifacts, p) :: ByPath(es)[p]
    ensures var kept := Retained(m.next, artifacts);
            var over := map p | p in kept.Keys + b.Keys && (p in b ==> Projectable(b[p])) :: if p in b then b[p]
              else kept[p];
            && Keyed(over)
            && (map p | p in over && (p in b || !Covers(t, over[p])) :: over[p]) == MergedPointwise(m, t, es)
  {
    var kept := Retained(m.next, artifacts);
    var over := map p | p in kept.Keys + b.Keys && (p in b ==> Projectable(b[p])) :: if p in b then b[p] else kept[p];
    var final := map p | p in over && (p in b || !Covers(t, over[p])) :: over[p];
    var goal := MergedPointwise(m, t, es);
    forall p
      ensures p in final <==> p in goal
      ensures p in final ==> final[p] == goal[p]
    {
      if p in b {
        assert Shows(es, artifacts, p);
      } else {
        assert !Shows(es, artifacts, p);
        assert p in over <==> p in kept;
        assert p in goal <==> Survives(m.next, t, artifacts, p);
      }
    }
  }

  // ---- A full refresh against a snapshot ----

  const WHOLE_TREE := Target(".", "infinity")

  lemma WholeTreeCovers(e: Entry)
    ensures Covers(WHOLE_TREE, e)
  {
    assert Slashes(".") == ".";
  }

  function Without(c: Cache, artifacts: set<string>): Cache {
    map p | p in c && Visible(c[p], artifacts) :: c[p]
  }

  lemma WholeTreeMerge(c: Cache, rows: seq<Entry>)
    requires Keyed(c) && DistinctPaths(rows) && forall e :: e in rows ==> Visible(e, Artifacts(rows))
    ensures RefreshedLocal(c, [(WHOLE_TREE, rows)]) == Without(LocalIndex(rows), CacheArtifacts(c))
  {
    var m := Merge(c, CacheArtifacts(c));
    var scans := [(WHOLE_TREE, rows)];
    assert MergeScans(m, scans[..0]) == m;
    assert MergeScans(m, scans) == MergeScan(m, WHOLE_TREE, rows);
    MergeIsPointwise(m, WHOLE_TREE, rows);
    WholeTreePointwise(m, rows);
    LocalIndexIsPointwise(rows);
  }

  lemma WholeTreePointwise(m: Merge, rows: seq<Entry>)
    requires DistinctPaths(rows) && forall e :: e in rows ==> Visible(e, Artifacts(rows))
    ensures MergedPointwise(m, WHOLE_TREE, rows)
              == map p | p in ByPath(rows) && Projectable(ByPath(rows)[p]) && Visible(ByPath(rows)[p], m.artifacts)
                 :: ByPath(rows)[p]
  {
    var b, artifacts := ByPath(rows), m.artifacts + Artifacts(rows);
    forall p ensures Shows(rows, artifacts, p) <==> p in b && Visible(b[p], m.artifacts) {
      ByPathFinds(rows);
    }
    forall p ensures !Survives(m.next, WHOLE_TREE, artifacts, p) {
      if p in m.next { WholeTreeCovers(m.next[p]); }
    }
  }

  lemma WholeTreeIsActive(roots: seq<string>)
    requires !InsideBoundary(".", roots)
    ensures ActiveTargets([WHOLE_TREE], roots) == [WHOLE_TREE]
  {
    assert ActiveTargets([WHOLE_TREE][..0], roots) == [];
  }

  lemma OneScan(scan: Scan, g: nat, roots: seq<string>, rows: seq<Entry>)
    requires rows == Prepared(scan.local, g, roots)
    ensures AllAnswered([WHOLE_TREE], [Some(scan)])
    ensures PreparedScans([WHOLE_TREE], [Some(scan)], g, roots) == [(WHOLE_TREE, rows)]
  {
    assert FirstScans([WHOLE_TREE], [Some(scan)], 0, g, roots) == [];
  }

  lemma WholeTreeScans(s: Session, scan: Scan)
    requires SessionOk(s)
    ensures var rows := Prepared(scan.local, s.nextGeneration, s.boundaryRoots);
            Refresh(s, [WHOLE_TREE], [Some(scan)])
              == s.(nextGeneration := s.nextGeneration + 1, local := RefreshedLocal(s.local, [(WHOLE_TREE, rows)]))
  {
    var g, roots := s.nextGeneration, s.boundaryRoots;
    WholeTreeIsActive(roots);
    OneScan(scan, g, roots, Prepared(scan.local, g, roots));
  }

  /** A refresh of the whole working copy leaves what a snapshot of the same scan would build,
      without the unversioned rows that the old cache listed as conflict artifacts. */
  lemma FullRefreshRefinesSnapshot(s: Session, scan: Scan)
    requires SessionOk(s) && DistinctPaths(scan.local)
    ensures Refresh(s, [WHOLE_TREE], [Some(scan)])
              == s.(nextGeneration := s.nextGeneration + 1,
                    local := Without(TakeSnapshot(s, Some(scan)).local, CacheArtifacts(s.local)))
  {
    WholeTreeScans(s, scan);
    PreparedFacts(scan.local, s.nextGeneration, s.boundaryRoots);
    WholeTreeMerge(s.local, Prepared(scan.local, s.nextGeneration, s.boundaryRoots));
  }

  /** So the two agree exactly when no unversioned row of the scan was an artifact before. */
  lemma FullRefreshEqualsSnapshotIff(s: Session, scan: Scan)
    requires SessionOk(s) && DistinctPaths(scan.local)
    ensures Refresh(s, [WHOLE_TREE], [Some(scan)]).local == TakeSnapshot(s, Some(scan)).local
            <==> forall e :: e in Prepared(scan.local, s.nextGeneration, s.boundaryRoots)
                             ==> Visible(e, CacheArtifacts(s.local))
  {
    FullRefreshRefinesSnapshot(s, scan);
    PreparedFacts(scan.local, s.nextGeneration, s.boundaryRoots);
    NothingStaleIff(Prepared(scan.local, s.nextGeneration, s.boundaryRoots), CacheArtifacts(s.local));
  }

  lemma NothingStaleIff(rows: seq<Entry>, artifacts: set<string>)
    requires DistinctPaths(rows)
    ensures Without(LocalIndex(rows), artifacts) == LocalIndex(rows)
            <==> forall e :: e in rows ==> Visible(e, artifacts)
  {
    LocalIndexIsPointwise(rows);
    ByPathFinds(rows);
    var index := LocalIndex(rows);
    forall e | e in rows && !Visible(e, artifacts) ensures Without(index, artifacts) != index {
      assert Projectable(e);
      assert e.path in index && e.path !in Without(index, artifacts);
    }
    if forall e :: e in rows ==> Visible(e, artifacts) {
      assert forall p :: p in index ==> index[p] in rows;
    }
  }

  const LEFT_BEHIND := Entry("f.mine", "file", "unversioned", "unversioned", "none", "none", "notChecked",
                            false, false, false, "infinity", None, [], 1, "")
  const WAS_CONFLICTED := Entry("f", "file", "conflicted", "conflicted", "none", "none", "notChecked",
                               false, false, false, "infinity", Some("text"), ["f.mine"], 0, "")

  /** The two do differ: a file whose conflict was resolved keeps its old artifact hidden once. */
  lemma FullRefreshCanHideRows(s: Session, scan: Scan)
    requires s == Session("/wc", 1, [], 1, map["f" := WAS_CONFLICTED], map[])
    requires scan == Scan([LEFT_BEHIND], [])
    ensures SessionOk(s) && DistinctPaths(scan.local)
    ensures Refresh(s, [WHOLE_TREE], [Some(scan)]).local != TakeSnapshot(s, Some(scan)).local
  {
    assert "f" in s.local && WAS_CONFLICTED.conflictArtifacts[0] == "f.mine";
    assert forall a :: a in WAS_CONFLICTED.conflictArtifacts <==> a == "f.mine";
    assert s.local["f"] == WAS_CONFLICTED;
    assert "f" in s.local && "f.mine" in s.local["f"].conflictArtifacts;
    assert "f.mine" in CacheArtifacts(s.local);
    assert SessionOk(s);
    OneRowPrepared();
    FullRefreshEqualsSnapshotIff(s, scan);
  }

  lemma OneRowPrepared()
    ensures LEFT_BEHIND in Prepared([LEFT_BEHIND], 1, [])
  {
    var bounded := Bounded([LEFT_BEHIND], 1, []);
    assert Stamped([LEFT_BEHIND], 1)[0] == LEFT_BEHIND;
    assert LEFT_BEHIND in bounded;
    assert Artifacts(bounded) == {} by {
      assert forall e :: e in bounded ==> e == LEFT_BEHIND;
    }
  }

  /** A second full refresh of an unchanged working copy always agrees with a snapshot: rows hidden
      because of an artifact list that no longer exists come back then. */
  lemma SecondFullRefreshHeals(s: Session, scan: Scan)
    requires SessionOk(s) && DistinctPaths(scan.local)
    ensures var once := Refresh(s, [WHOLE_TREE], [Some(scan)]);
            Refresh(once, [WHOLE_TREE], [Some(scan)]).local == TakeSnapshot(once, Some(scan)).local
  {
    var once := Refresh(s, [WHOLE_TREE], [Some(scan)]);
    RefreshKeepsSession(s, [WHOLE_TREE], [Some(scan)]);
    assert CacheArtifacts(once.local) <= Artifacts(Bounded(scan.local, once.nextGeneration, s.boundaryRoots)) by {
      FullRefreshRefinesSnapshot(s, scan);
      RefreshedArtifacts(s, scan, CacheArtifacts(s.local));
    }
    WholeTreeScans(s, scan);
    PreparedHidesOwn(scan.local, once.nextGeneration, s.boundaryRoots, CacheArtifacts(once.local));
    FullRefreshEqualsSnapshotIff(once, scan);
  }

  lemma PreparedHidesOwn(es: seq<Entry>, g: nat, roots: seq<string>, artifacts: set<string>)
    requires artifacts <= Artifacts(Bounded(es, g, roots))
    ensures forall e :: e in Prepared(es, g, roots) ==> Visible(e, artifacts)
  {
  }

  lemma IndexedArtifacts(rows: seq<Entry>, hidden: set<string>)
    ensures CacheArtifacts(Without(LocalIndex(rows), hidden)) <= Artifacts(rows)
  {
    IndexFacts(rows);
  }

  lemma RefreshedArtifacts(s: Session, scan: Scan, hidden: set<string>)
    ensures CacheArtifacts(Without(TakeSnapshot(s, Some(scan)).local, hidden))
            <= Artifacts(Bounded(scan.local, s.nextGeneration + 1, s.boundaryRoots))
  {
    var g, roots := s.nextGeneration, s.boundaryRoots;
    PreparedArtifacts(scan.local, g, roots);
    IndexedArtifacts(Prepared(scan.local, g, roots), hidden);
    BoundedArtifacts(scan.local, g, g + 1, roots);
  }

  lemma PreparedArtifacts(es: seq<Entry>, g: nat, roots: seq<string>)
    ensures Artifacts(Prepared(es, g, roots)) <= Artifacts(Bounded(es, g, roots))
  {
  }

  lemma BoundedArtifacts(es: seq<Entry>, g: nat, g': nat, roots: seq<string>)
    ensures Artifacts(Bounded(es, g, roots)) <= Artifacts(Bounded(es, g', roots))
  {
    var a, b := Stamped(es, g), Stamped(es, g');
    forall x | x in Artifacts(Bounded(es, g, roots)) ensures x in Artifacts(Bounded(es, g', roots)) {
      var e :| e in Bounded(es, g, roots) && x in e.conflictArtifacts;
      var i :| 0 <= i < |a| && a[i] == e;
      assert b[i] in b && b[i] in Bounded(es, g', roots);
    }
  }

  // ---- The invariant of a session ----

  predicate RowOk(e: Entry, p: string, roots: seq<string>, generation: nat) {
    e.path == p && !InsideBoundary(p, roots) && e.generation < generation
  }

  predicate LocalOk(c: Cache, roots: seq<string>, generation: nat, artifacts: set<string>) {
    forall p :: p in c ==> RowOk(c[p], p, roots, generation) && Projectable(c[p]) && Visible(c[p], artifacts)
  }

  /** Every row is keyed by its path, worth showing, outside the boundaries and older than the next
      generation; and no cached unversioned row is a conflict artifact of a cached row. */
  predicate SessionOk(s: Session) {
    && !InsideBoundary(".", s.boundaryRoots)
    && LocalOk(s.local, s.boundaryRoots, s.nextGeneration, CacheArtifacts(s.local))
    && (forall p :: p in s.remote ==>
          RowOk(s.remote[p], p, s.boundaryRoots, s.nextGeneration) && RemoteProjectable(s.remote[p]))
  }

  lemma {:induction false} IndexFacts(es: seq<Entry>)
    ensures forall p :: p in LocalIndex(es) ==>
              LocalIndex(es)[p] in es && LocalIndex(es)[p].path == p && Projectable(LocalIndex(es)[p])
    ensures forall p :: p in RemoteIndex(es) ==>
              RemoteIndex(es)[p] in es && RemoteIndex(es)[p].path == p && RemoteProjectable(RemoteIndex(es)[p])
  {
    if es != [] {
      IndexFacts(es[..|es| - 1]);
    }
  }

  lemma PreparedIndexOk(es: seq<Entry>, g: nat, roots: seq<string>, generation: nat)
    requires g < generation
    ensures var c := LocalIndex(Prepared(es, g, roots)); LocalOk(c, roots, generation, CacheArtifacts(c))
  {
    PreparedFacts(es, g, roots);
    IndexFacts(Prepared(es, g, roots));
  }

  lemma {:induction false} InsertedFacts(c: Cache, es: seq<Entry>)
    ensures forall p :: p in Inserted(c, es) ==>
              var e := Inserted(c, es)[p];
              (p in c && e == c[p]) || (e in es && e.path == p && Projectable(e))
  {
    if es != [] {
      InsertedFacts(c, es[..|es| - 1]);
    }
  }

  predicate MergeOk(m: Merge, roots: seq<string>, generation: nat) {
    LocalOk(m.next, roots, generation, m.artifacts) && CacheArtifacts(m.next) <= m.artifacts
  }

  predicate RowsOk(es: seq<Entry>, roots: seq<string>, generation: nat, artifacts: set<string>) {
    && (forall e :: e in es ==> RowOk(e, e.path, roots, generation) && Visible(e, artifacts))
    && Artifacts(es) <= artifacts
  }

  lemma InsertedKeeps(c: Cache, es: seq<Entry>, roots: seq<string>, generation: nat, artifacts: set<string>)
    requires LocalOk(c, roots, generation, artifacts) && CacheArtifacts(c) <= artifacts
      && RowsOk(es, roots, generation, artifacts)
    ensures var r := Inserted(c, es); LocalOk(r, roots, generation, artifacts) && CacheArtifacts(r) <= artifacts
  {
    InsertedFacts(c, es);
    forall a | a in CacheArtifacts(Inserted(c, es)) ensures a in artifacts {
      var p :| p in Inserted(c, es) && a in Inserted(c, es)[p].conflictArtifacts;
      if p in c && Inserted(c, es)[p] == c[p] {
        assert a in CacheArtifacts(c);
      }
    }
  }

  lemma PreparedRowsOk(raw: seq<Entry>, g: nat, roots: seq<string>, artifacts: set<string>)
    requires Artifacts(Prepared(raw, g, roots)) <= artifacts
    ensures RowsOk(Shown(Prepared(raw, g, roots), artifacts), roots, g + 1, artifacts)
  {
    PreparedFacts(raw, g, roots);
  }

  lemma MergeScanKeeps(m: Merge, t: Target, raw: seq<Entry>, g: nat, roots: seq<string>)
    requires MergeOk(m, roots, g + 1)
    ensures MergeOk(MergeScan(m, t, Prepared(raw, g, roots)), roots, g + 1)
  {
    var es := Prepared(raw, g, roots);
    var artifacts := m.artifacts + Artifacts(es);
    PreparedRowsOk(raw, g, roots, artifacts);
    InsertedKeeps(Retained(m.next, artifacts), Shown(es, artifacts), roots, g + 1, artifacts);
  }

  lemma {:induction false} MergeScansKeep(m: Merge, active: seq<Target>, answers: seq<Option<Scan>>, n: nat, g: nat,
      roots: seq<string>)
    requires MergeOk(m, roots, g + 1) && n <= |active| && forall i :: 0 <= i < n ==> Answer(answers, i).Some?
    ensures MergeOk(MergeScans(m, FirstScans(active, answers, n, g, roots)), roots, g + 1)
  {
    if n > 0 {
      MergeScansKeep(m, active, answers, n - 1, g, roots);
      var scans := FirstScans(active, answers, n, g, roots);
      assert scans[..n - 1] == FirstScans(active, answers, n - 1, g, roots);
      MergeScanKeeps(MergeScans(m, scans[..n - 1]), active[n - 1], Answer(answers, n - 1).value.local, g, roots);
    }
  }

  lemma SnapshotKeepsSession(s: Session, outcome: Option<Scan>)
    requires SessionOk(s)
    ensures SessionOk(TakeSnapshot(s, outcome))
  {
    if outcome.Some? {
      var g, roots := s.nextGeneration, s.boundaryRoots;
      PreparedIndexOk(outcome.value.local, g, roots, g + 1);
      PreparedFacts(outcome.value.remote, g, roots);
      IndexFacts(Bounded(outcome.value.remote, g, roots));
    }
  }

  lemma RefreshKeepsSession(s: Session, targets: seq<Target>, answers: seq<Option<Scan>>)
    requires SessionOk(s)
    ensures SessionOk(Refresh(s, targets, answers))
  {
    var g, roots := s.nextGeneration, s.boundaryRoots;
    var active := ActiveTargets(targets, roots);
    if AllAnswered(active, answers) {
      MergeScansKeep(Merge(s.local, CacheArtifacts(s.local)), active, answers, |active|, g, roots);
    }
  }

  lemma CheckRemoteKeepsSession(s: Session, outcome: Option<Scan>)
    requires SessionOk(s)
    ensures SessionOk(CheckRemote(s, outcome))
  {
    if outcome.Some? {
      PreparedFacts(outcome.value.remote, s.nextGeneration, s.boundaryRoots);
      IndexFacts(Bounded(outcome.value.remote, s.nextGeneration, s.boundaryRoots));
    }
  }

  /** Recovery keeps it because its plan was made at the session's current generation. */
  lemma RecoveryKeepsSession(s: Session, generation: nat, local: seq<Entry>)
    requires SessionOk(s) && generation <= s.nextGeneration
    ensures SessionOk(Recovered(s, generation, s.boundaryRoots, local))
  {
    PreparedIndexOk(local, generation, s.boundaryRoots, s.nextGeneration + 1);
  }

  // ---- What a partial refresh touches ----

  predicate DistinctScans(scans: Scans) {
    forall i :: 0 <= i < |scans| ==> DistinctPaths(scans[i].1)
  }

  lemma {:induction false} MergesStayKeyed(m: Merge, scans: Scans)
    requires Keyed(m.next) && DistinctScans(scans)
    ensures Keyed(MergeScans(m, scans).next)
    ensures m.artifacts <= MergeScans(m, scans).artifacts
  {
    if scans != [] {
      var front, last := scans[..|scans| - 1], scans[|scans| - 1];
      MergesStayKeyed(m, front);
      MergeIsPointwise(MergeScans(m, front), last.0, last.1);
    }
  }

  /** A cached row that no target covers, no scan reports and no artifact list hides is unchanged. */
  lemma {:induction false} UntouchedRowStays(m: Merge, scans: Scans, p: string)
    requires Keyed(m.next) && DistinctScans(scans) && p in m.next
    requires Visible(m.next[p], MergeScans(m, scans).artifacts)
    requires forall i :: 0 <= i < |scans| ==> !Covers(scans[i].0, m.next[p]) && p !in ByPath(scans[i].1)
    ensures p in MergeScans(m, scans).next && MergeScans(m, scans).next[p] == m.next[p]
  {
    if scans != [] {
      var front, last := scans[..|scans| - 1], scans[|scans| - 1];
      MergesStayKeyed(m, front);
      var before := MergeScans(m, front);
      MergeIsPointwise(before, last.0, last.1);
      UntouchedRowStays(m, front, p);
      assert !Shows(last.1, before.artifacts + Artifacts(last.1), p);
      assert Survives(before.next, last.0, before.artifacts + Artifacts(last.1), p);
    }
  }

  /** A row that target `i` covers, missing from its scan and from all later scans, is gone. */
  lemma {:induction false} CoveredMissingRowGoes(m: Merge, scans: Scans, i: nat, p: string)
    requires Keyed(m.next) && DistinctScans(scans) && i < |scans|
    requires var before := MergeScans(m, scans[..i]).next; p in before ==> Covers(scans[i].0, before[p])
    requires forall j :: i <= j < |scans| ==> p !in ByPath(scans[j].1)
    ensures p !in MergeScans(m, scans).next
  {
    var front, last := scans[..|scans| - 1], scans[|scans| - 1];
    MergesStayKeyed(m, front);
    var before := MergeScans(m, front);
    if i < |scans| - 1 {
      assert front[..i] == scans[..i];
      CoveredMissingRowGoes(m, front, i, p);
    } else {
      assert scans[..i] == front;
    }
    UnshownRowGoes(before, last.0, last.1, p);
  }

  lemma UnshownRowGoes(m: Merge, t: Target, es: seq<Entry>, p: string)
    requires DistinctPaths(es) && Keyed(m.next) && p !in ByPath(es) && (p in m.next ==> Covers(t, m.next[p]))
    ensures p !in MergeScan(m, t, es).next
  {
    MergeIsPointwise(m, t, es);
    assert !Shows(es, m.artifacts + Artifacts(es), p);
  }

  /** The last scan that reports a visible row has the last word on its path. */
  lemma {:induction false} LastReportWins(m: Merge, scans: Scans, i: nat, p: string)
    requires Keyed(m.next) && DistinctScans(scans) && i < |scans| && p in ByPath(scans[i].1)
    requires Visible(ByPath(scans[i].1)[p], MergeScans(m, scans).artifacts)
    requires forall j :: i < j < |scans| ==>
               !Covers(scans[j].0, ByPath(scans[i].1)[p]) && p !in ByPath(scans[j].1)
    ensures var r := MergeScans(m, scans).next;
            && (p in r <==> Projectable(ByPath(scans[i].1)[p]))
            && (p in r ==> r[p] == ByPath(scans[i].1)[p])
  {
    var row := ByPath(scans[i].1)[p];
    var front, last := scans[..|scans| - 1], scans[|scans| - 1];
    MergesStayKeyed(m, front);
    var before := MergeScans(m, front);
    var artifacts := before.artifacts + Artifacts(last.1);
    MergeIsPointwise(before, last.0, last.1);
    ByPathFinds(scans[i].1);
    if i < |scans| - 1 {
      LastReportWins(m, front, i, p);
      assert !Shows(last.1, artifacts, p);
      assert p in before.next ==> Survives(before.next, last.0, artifacts, p);
    } else {
      assert Shows(last.1, artifacts, p);
    }
  }

  // ---- Deltas ----

  function Upserted(c: Cache, es: seq<Entry>): Cache {
    if es == [] then c else Upserted(c, es[..|es| - 1])[es[|es| - 1].path := es[|es| - 1]]
  }

  /** How a client folds a delta: remove, then upsert by path. */
  function Folded(c: Cache, upsert: seq<Entry>, remove: seq<string>): Cache {
    Upserted(c - (set p | p in remove), upsert)
  }

  lemma {:induction false} UpsertedIsPointwise(c: Cache, es: seq<Entry>)
    ensures Upserted(c, es) == map p | p in c.Keys + ByPath(es).Keys :: if p in ByPath(es) then ByPath(es)[p] else c[p]
  {
    if es != [] {
      UpsertedIsPointwise(c, es[..|es| - 1]);
    }
  }

  /** The upserted rows are the changed rows of the later cache. */
  lemma UpsertsAreChanges(upsert: seq<Entry>, remove: seq<string>, before: Cache, after: Cache)
    requires Describes(upsert, remove, before, after) && Keyed(after)
    ensures forall p :: p in ByPath(upsert) <==> p in after && !(p in before && before[p] == after[p])
    ensures forall p :: p in ByPath(upsert) ==> ByPath(upsert)[p] == after[p]
  {
    ByPathFinds(upsert);
    var b := ByPath(upsert);
    forall p ensures p in b <==> p in after && !(p in before && before[p] == after[p]) {
      if p in after && !(p in before && before[p] == after[p]) {
        assert after[p] in upsert;
      }
    }
    forall p | p in b ensures b[p] == after[p] {
      assert b[p] in upsert;
    }
  }

  /** Folding a delta takes one cache to the other, whatever order the lists are in. */
  lemma DeltaReplays(upsert: seq<Entry>, remove: seq<string>, before: Cache, after: Cache)
    requires Describes(upsert, remove, before, after) && Keyed(after)
    ensures Folded(before, upsert, remove) == after
  {
    var kept, b, r := before - (set p | p in remove), ByPath(upsert), Folded(before, upsert, remove);
    UpsertedIsPointwise(kept, upsert);
    UpsertsAreChanges(upsert, remove, before, after);
    forall p ensures p in r <==> p in after {
      assert p in r <==> p in kept || p in b;
    }
    forall p | p in r ensures r[p] == after[p] {
      assert r[p] == if p in b then b[p] else kept[p];
    }
  }

  /** Deltas are minimal: any fold between the same caches names every removed path, or upserts
      every changed row; and the two lists never name one path. */
  lemma DeltaIsMinimal(upsert: seq<Entry>, remove: seq<string>, upsert': seq<Entry>, remove': seq<string>,
      before: Cache, after: Cache)
    requires Describes(upsert, remove, before, after) && Keyed(after)
    requires Folded(before, upsert', remove') == after
    ensures forall p :: p in remove ==> p in remove'
    ensures forall e :: e in upsert ==> e in upsert'
    ensures forall e :: e in upsert ==> e.path !in remove
  {
    var kept, b := before - (set p | p in remove'), ByPath(upsert');
    UpsertedIsPointwise(kept, upsert');
    ByPathFinds(upsert');
    forall e | e in upsert ensures e in upsert' {
      assert e.path in b && b[e.path] == after[e.path];
    }
  }

  // ---- Counting rows ----

  ghost function Counted(k: Counter, c: Cache, artifacts: set<string>): set<string> {
    set p | p in c && Counts(k, c[p], artifacts)
  }

  lemma CountedOneMore(k: Counter, c: Cache, e: Entry, artifacts: set<string>)
    requires e.path !in c
    ensures Counted(k, c[e.path := e], artifacts)
         == Counted(k, c, artifacts) + if Counts(k, e, artifacts) then {e.path} else {}
  {
    var c' := c[e.path := e];
    assert forall p :: p in c ==> c'[p] == c[p];
  }

  lemma CountOneMore(k: Counter, c: Cache, e: Entry, artifacts: set<string>)
    requires e.path !in c
    ensures CountIn(k, c[e.path := e], artifacts)
              == CountIn(k, c, artifacts) + if Counts(k, e, artifacts) then 1 else 0
  {
    CountedOneMore(k, c, e, artifacts);
  }

  lemma {:induction false} TallyIsCount(k: Counter, es: seq<Entry>, artifacts: set<string>)
    requires DistinctPaths(es)
    ensures Tally(k, es, artifacts) == CountIn(k, ByPath(es), artifacts)
  {
    if es != [] {
      var front, last := es[..|es| - 1], es[|es| - 1];
      TallyIsCount(k, front, artifacts);
      ByPathFinds(front);
      assert last.path !in PathsOf(front);
      CountOneMore(k, ByPath(front), last, artifacts);
    }
  }

  lemma SnapshotSummaryIsCacheSummary(rows: seq<Entry>, remote: seq<Entry>)
    requires DistinctPaths(rows) && DistinctPaths(remote)
    requires forall e :: e in rows ==> Visible(e, Artifacts(rows))
    ensures ListSummary(rows, remote) == CacheSummary(LocalIndex(rows), RemoteIndex(remote))
  {
    LocalIndexIsPointwise(rows);
    RemoteIndexIsPointwise(remote);
    ByPathFinds(rows);
    ByPathFinds(remote);
    IndexFacts(rows);
    var c := LocalIndex(rows);
    assert CacheArtifacts(c) <= Artifacts(rows);
    LocalCountsAgree(Changes, rows, c);
    LocalCountsAgree(Conflicts, rows, c);
    LocalCountsAgree(UnversionedRows, rows, c);
    TallyIsCount(RemoteChanges, remote, {});
    assert Counted(RemoteChanges, ByPath(remote), {}) == Counted(RemoteChanges, RemoteIndex(remote), {});
  }

  lemma LocalCountsAgree(k: Counter, rows: seq<Entry>, c: Cache)
    requires DistinctPaths(rows) && k != RemoteChanges
    requires forall e :: e in rows ==> Visible(e, Artifacts(rows)) && Visible(e, CacheArtifacts(c))
    requires c == map p | p in ByPath(rows) && Projectable(ByPath(rows)[p]) :: ByPath(rows)[p]
    ensures Tally(k, rows, Artifacts(rows)) == CountIn(k, c, CacheArtifacts(c))
  {
    TallyIsCount(k, rows, Artifacts(rows));
    ByPathFinds(rows);
    forall p | p in ByPath(rows)
      ensures p in Counted(k, ByPath(rows), Artifacts(rows)) <==> p in Counted(k, c, CacheArtifacts(c))
    {
      assert ByPath(rows)[p] in rows;
    }
    assert Counted(k, ByPath(rows), Artifacts(rows)) == Counted(k, c, CacheArtifacts(c));
  }

  /** Summarizing the rows of a cache, listed in any order, gives the cache's summary. */
  lemma ListingSummary(local: seq<Entry>, remote: seq<Entry>, c: Cache, r: Cache)
    requires ListsRows(local, c) && ListsRows(remote, r) && Keyed(c) && Keyed(r)
    ensures ListSummary(local, remote) == CacheSummary(c, r)
  {
    ListingByPath(local, c);
    ListingByPath(remote, r);
    assert Artifacts(local) == CacheArtifacts(c) by {
      forall a | a in CacheArtifacts(c) ensures a in Artifacts(local) {
        var p :| p in c && a in c[p].conflictArtifacts;
        assert c[p] in local;
      }
    }
    TallyIsCount(Changes, local, Artifacts(local));
    TallyIsCount(Conflicts, local, Artifacts(local));
    TallyIsCount(UnversionedRows, local, Artifacts(local));
    TallyIsCount(RemoteChanges, remote, {});
  }

  lemma ListingByPath(es: seq<Entry>, c: Cache)
    requires ListsRows(es, c) && Keyed(c)
    ensures ByPath(es) == c
  {
    ByPathFinds(es);
    forall p | p in c ensures p in ByPath(es) {
      assert c[p] in es;
    }
  }

  // ---- Every run of a session, and the client that watches it ----

  /** What happens to one open session, with what the daemon replied. */
  datatype Event =
    | SnapshotTaken(outcome: Option<Scan>, reply: SnapshotReply)
    | Refreshed(targets: seq<Target>, answers: seq<Option<Scan>>, delta: Delta)
    | RemoteChecked(outcome: Option<Scan>, delta: Delta)
    | Recovery(generation: nat, rows: seq<Entry>)

  function After(s: Session, ev: Event): Session {
    match ev
    case SnapshotTaken(outcome, _) => TakeSnapshot(s, outcome)
    case Refreshed(targets, answers, _) => Refresh(s, targets, answers)
    case RemoteChecked(outcome, _) => CheckRemote(s, outcome)
    case Recovery(generation, rows) => Recovered(s, generation, s.boundaryRoots, rows)
  }

  /** Did the event succeed, so that its reply carries data? */
  predicate Succeeds(s: Session, ev: Event) {
    match ev
    case SnapshotTaken(outcome, _) => outcome.Some?
    case Refreshed(targets, answers, _) => AllAnswered(ActiveTargets(targets, s.boundaryRoots), answers)
    case RemoteChecked(outcome, _) => outcome.Some?
    case Recovery(_, _) => true
  }

  ghost predicate Possible(s: Session, ev: Event) {
    Succeeds(s, ev) ==>
      match ev
      case SnapshotTaken(outcome, reply) => SnapshotReplyOf(reply, s, outcome.value)
      case Refreshed(_, _, delta) => DeltaOf(delta, s, After(s, ev))
      case RemoteChecked(_, delta) => DeltaOf(delta, s, After(s, ev))
      case Recovery(generation, _) => generation <= s.nextGeneration
  }

  /** A client: mirrored rows, running totals, and whether it was told to start over. */
  datatype Client = Client(local: Cache, remote: Cache, totals: SummaryDelta, stale: bool)

  function Totals(s: Summary): SummaryDelta {
    SummaryDelta(s.localChanges, s.remoteChanges, s.conflicts, s.unversioned)
  }

  function Plus(a: SummaryDelta, b: SummaryDelta): SummaryDelta {
    SummaryDelta(a.localChanges + b.localChanges, a.remoteChanges + b.remoteChanges,
                 a.conflicts + b.conflicts, a.unversioned + b.unversioned)
  }

  function Observe(s: Session, c: Client, ev: Event): Client {
    if !Succeeds(s, ev) then c
    else
      match ev
      case SnapshotTaken(_, reply) =>
        Client(LocalIndex(reply.local), RemoteIndex(reply.remote), Totals(reply.summary), false)
      case Refreshed(_, _, d) => ObserveDelta(c, d)
      case RemoteChecked(_, d) => ObserveDelta(c, d)
      case Recovery(_, _) => c.(stale := true)
  }

  function ObserveDelta(c: Client, d: Delta): Client {
    c.(local := Folded(c.local, d.upsert, d.remove),
       remote := Folded(c.remote, d.remoteUpsert, d.remoteRemove),
       totals := Plus(c.totals, d.summary))
  }

  predicate Mirrors(s: Session, c: Client) {
    !c.stale ==> c.local == s.local && c.remote == s.remote
  }

  function SessionAfter(s: Session, evs: seq<Event>): Session {
    if evs == [] then s else After(SessionAfter(s, evs[..|evs| - 1]), evs[|evs| - 1])
  }

  function ClientAfter(s: Session, c: Client, evs: seq<Event>): Client {
    if evs == [] then c
    else Observe(SessionAfter(s, evs[..|evs| - 1]), ClientAfter(s, c, evs[..|evs| - 1]), evs[|evs| - 1])
  }

  ghost predicate PossibleRun(s: Session, evs: seq<Event>) {
    forall i :: 0 <= i < |evs| ==> Possible(SessionAfter(s, evs[..i]), evs[i])
  }

  lemma StepKeepsSession(s: Session, ev: Event)
    requires SessionOk(s) && Possible(s, ev)
    ensures SessionOk(After(s, ev))
  {
    match ev
    case SnapshotTaken(outcome, _) => SnapshotKeepsSession(s, outcome);
    case Refreshed(targets, answers, _) => RefreshKeepsSession(s, targets, answers);
    case RemoteChecked(outcome, _) => CheckRemoteKeepsSession(s, outcome);
    case Recovery(generation, rows) => RecoveryKeepsSession(s, generation, rows);
  }

  lemma ListingIndexes(es: seq<Entry>, c: Cache)
    requires ListsRows(es, c) && Keyed(c) && forall p :: p in c ==> RemoteProjectable(c[p])
    ensures RemoteIndex(es) == c
  {
    RemoteIndexIsPointwise(es);
    ListingByPath(es, c);
  }

  lemma ReplyRemoteIndexes(r: SnapshotReply, s: Session, scan: Scan)
    requires SessionOk(s) && SnapshotReplyOf(r, s, scan)
    ensures RemoteIndex(r.remote) == TakeSnapshot(s, Some(scan)).remote
  {
    var g := s.nextGeneration;
    if Bounded(scan.remote, g, s.boundaryRoots) == [] {
      ListingIndexes(r.remote, Restamped(s.remote, g));
    }
  }

  lemma StepKeepsMirror(s: Session, c: Client, ev: Event)
    requires SessionOk(s) && Possible(s, ev) && Mirrors(s, c)
    ensures Mirrors(After(s, ev), Observe(s, c, ev))
  {
    var s' := After(s, ev);
    StepKeepsSession(s, ev);
    if Succeeds(s, ev) && !Observe(s, c, ev).stale {
      match ev
      case SnapshotTaken(outcome, reply) => ReplyRemoteIndexes(reply, s, outcome.value);
      case Refreshed(_, _, d) =>
        DeltaReplays(d.upsert, d.remove, s.local, s'.local);
        DeltaReplays(d.remoteUpsert, d.remoteRemove, s.remote, s'.remote);
      case RemoteChecked(_, d) =>
        DeltaReplays(d.upsert, d.remove, s.local, s'.local);
        DeltaReplays(d.remoteUpsert, d.remoteRemove, s.remote, s'.remote);
    }
  }

  /** In every run the session keeps its invariant, and a client that keeps the projectable rows of
      snapshots and folds every delta equals it, from each snapshot to the next recovery. */
  lemma {:induction false} ClientMirrorsEveryRun(s: Session, c: Client, evs: seq<Event>)
    requires SessionOk(s) && Mirrors(s, c) && PossibleRun(s, evs)
    ensures SessionOk(SessionAfter(s, evs))
    ensures Mirrors(SessionAfter(s, evs), ClientAfter(s, c, evs))
  {
    if evs != [] {
      var front := evs[..|evs| - 1];
      assert forall i :: 0 <= i < |front| ==> front[..i] == evs[..i];
      ClientMirrorsEveryRun(s, c, front);
      StepKeepsSession(SessionAfter(s, front), evs[|evs| - 1]);
      StepKeepsMirror(SessionAfter(s, front), ClientAfter(s, c, front), evs[|evs| - 1]);
    }
  }

  // ---- Totals ----

  predicate FitsI32(t: Summary) {
    t.localChanges < 0x8000_0000 && t.remoteChanges < 0x8000_0000 && t.conflicts < 0x8000_0000
      && t.unversioned < 0x8000_0000
  }

  predicate Fits(s: Session) { FitsI32(CacheSummary(s.local, s.remote)) }

  /** The bridge lists no path twice. */
  predicate Tidy(ev: Event) {
    ev.SnapshotTaken? && ev.outcome.Some? ==>
      DistinctPaths(ev.outcome.value.local) && DistinctPaths(ev.outcome.value.remote)
  }

  predicate TotalsAgree(s: Session, c: Client) {
    !c.stale ==> c.totals == Totals(CacheSummary(s.local, s.remote))
  }

  lemma DeltaTotals(before: Summary, after: Summary)
    requires FitsI32(before) && FitsI32(after)
    ensures Plus(Totals(before), SummaryChange(before, after)) == Totals(after)
  {
    SmallIsItself(before.localChanges);
    SmallIsItself(before.remoteChanges);
    SmallIsItself(before.conflicts);
    SmallIsItself(before.unversioned);
    SmallIsItself(after.localChanges);
    SmallIsItself(after.remoteChanges);
    SmallIsItself(after.conflicts);
    SmallIsItself(after.unversioned);
  }

  lemma SmallIsItself(n: nat)
    requires n < 0x8000_0000
    ensures AsI32(n) == n
  {
  }

  lemma SnapshotTotals(s: Session, scan: Scan, r: SnapshotReply)
    requires SessionOk(s) && SnapshotReplyOf(r, s, scan)
    requires DistinctPaths(scan.local) && DistinctPaths(scan.remote)
    ensures var s' := TakeSnapshot(s, Some(scan)); r.summary == CacheSummary(s'.local, s'.remote)
  {
    PreparedFacts(scan.local, s.nextGeneration, s.boundaryRoots);
    PreparedFacts(scan.remote, s.nextGeneration, s.boundaryRoots);
    ReplyRemoteIndexes(r, s, scan);
    SnapshotSummaryIsCacheSummary(r.local, r.remote);
  }

  lemma StepKeepsTotals(s: Session, c: Client, ev: Event)
    requires SessionOk(s) && Possible(s, ev) && Tidy(ev) && TotalsAgree(s, c)
    requires Fits(s) && Fits(After(s, ev))
    ensures TotalsAgree(After(s, ev), Observe(s, c, ev))
  {
    var s' := After(s, ev);
    if Succeeds(s, ev) {
      match ev
      case SnapshotTaken(outcome, reply) => SnapshotTotals(s, outcome.value, reply);
      case Refreshed(_, _, d) => DeltaTotals(CacheSummary(s.local, s.remote), CacheSummary(s'.local, s'.remote));
      case RemoteChecked(_, d) => DeltaTotals(CacheSummary(s.local, s.remote), CacheSummary(s'.local, s'.remote));
      case Recovery(_, _) =>
    }
  }

  /** A snapshot's summary plus all later summary deltas is the summary of the current cache, though
      the snapshot counts every reported row and the cache holds only the projectable ones. */
  lemma {:induction false} TotalsTelescopeInEveryRun(s: Session, c: Client, evs: seq<Event>)
    requires SessionOk(s) && TotalsAgree(s, c) && PossibleRun(s, evs)
    requires forall i :: 0 <= i < |evs| ==> Tidy(evs[i])
    requires forall i :: 0 <= i <= |evs| ==> Fits(SessionAfter(s, evs[..i]))
    ensures TotalsAgree(SessionAfter(s, evs), ClientAfter(s, c, evs))
  {
    if evs != [] {
      var front := evs[..|evs| - 1];
      assert forall i :: 0 <= i <= |front| ==> front[..i] == evs[..i];
      assert evs[..|evs|] == evs;
      TotalsTelescopeInEveryRun(s, c, front);
      ClientMirrorsEveryRun(s, Client(s.local, s.remote, c.totals, true), front);
      StepKeepsTotals(SessionAfter(s, front), ClientAfter(s, c, front), evs[|evs| - 1]);
    }
  }
}
