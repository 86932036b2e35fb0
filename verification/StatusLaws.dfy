/** What each status request leaves in the cache, said of the rows the bridge reported. */
module StatusLaws {
  import opened Options
  import opened Status
  import opened StatusTheorems

  // ---- Which reported rows remain ----

  function At(r: Entry, generation: nat): Entry { r.(generation := generation) }

  predicate Outside(r: Entry, roots: seq<string>) { !InsideBoundary(r.path, roots) }

  /** The path is listed as a conflict artifact by a reported row outside the boundaries. */
  ghost predicate IsArtifact(path: string, es: seq<Entry>, roots: seq<string>) {
    exists q :: q in es && Outside(q, roots) && path in q.conflictArtifacts
  }

  /** A reported row that lies outside the boundaries and is not hidden as an artifact. */
  ghost predicate Remains(r: Entry, es: seq<Entry>, roots: seq<string>) {
    r in es && Outside(r, roots) && !(Unversioned(r) && IsArtifact(r.path, es, roots))
  }

  lemma BoundedIff(es: seq<Entry>, g: nat, roots: seq<string>, e: Entry)
    ensures e in Bounded(es, g, roots) <==> exists r :: r in es && Outside(r, roots) && e == At(r, g)
  {
    var stamped := Stamped(es, g);
    if e in Bounded(es, g, roots) {
      var i :| 0 <= i < |stamped| && stamped[i] == e;
      assert es[i] in es && e == At(es[i], g);
    }
    if r :| r in es && Outside(r, roots) && e == At(r, g) {
      var i :| 0 <= i < |es| && es[i] == r;
      assert stamped[i] == e;
    }
  }

  lemma BoundedArtifactsIff(es: seq<Entry>, g: nat, roots: seq<string>, path: string)
    ensures path in Artifacts(Bounded(es, g, roots)) <==> IsArtifact(path, es, roots)
  {
    if path in Artifacts(Bounded(es, g, roots)) {
      var e :| e in Bounded(es, g, roots) && path in e.conflictArtifacts;
      BoundedIff(es, g, roots, e);
    }
    if IsArtifact(path, es, roots) {
      var q :| q in es && Outside(q, roots) && path in q.conflictArtifacts;
      BoundedIff(es, g, roots, At(q, g));
      assert At(q, g) in Bounded(es, g, roots);
    }
  }

  /** Exactly which rows a scan is reduced to. */
  lemma PreparedIff(es: seq<Entry>, g: nat, roots: seq<string>, e: Entry)
    ensures e in Prepared(es, g, roots) <==> exists r :: Remains(r, es, roots) && e == At(r, g)
  {
    BoundedIff(es, g, roots, e);
    BoundedArtifactsIff(es, g, roots, e.path);
    if e in Prepared(es, g, roots) {
      var r :| r in es && Outside(r, roots) && e == At(r, g);
      assert Remains(r, es, roots);
    }
    if r :| Remains(r, es, roots) && e == At(r, g) {
      assert r in es && Outside(r, roots);
    }
  }

  // ---- What is cached of them ----

  lemma OneRowPerPath(es: seq<Entry>, r: Entry, q: Entry)
    requires DistinctPaths(es) && r in es && q in es && r.path == q.path
    ensures r == q
  {
  }

  /** The local cache holds exactly the projectable rows that remain, stamped. */
  ghost predicate LocalRows(c: Cache, es: seq<Entry>, g: nat, roots: seq<string>) {
    && (forall r :: r in es ==> (r.path in c <==> Remains(r, es, roots) && Projectable(r)))
    && (forall r :: r in es && r.path in c ==> c[r.path] == At(r, g))
    && (forall p :: p in c ==> p in PathsOf(es))
  }

  /** The remote cache holds exactly the remotely projectable rows outside the boundaries, stamped. */
  ghost predicate RemoteRows(c: Cache, es: seq<Entry>, g: nat, roots: seq<string>) {
    && (forall r :: r in es ==> (r.path in c <==> Outside(r, roots) && RemoteProjectable(r)))
    && (forall r :: r in es && r.path in c ==> c[r.path] == At(r, g))
    && (forall p :: p in c ==> p in PathsOf(es))
  }

  lemma LocalRow(es: seq<Entry>, g: nat, roots: seq<string>, r: Entry)
    requires DistinctPaths(es) && r in es
    ensures var c := LocalIndex(Prepared(es, g, roots));
      && (r.path in c <==> Remains(r, es, roots) && Projectable(r))
      && (r.path in c ==> c[r.path] == At(r, g))
  {
    var rows := Prepared(es, g, roots);
    PreparedFacts(es, g, roots);
    LocalIndexIsPointwise(rows);
    ByPathFinds(rows);
    PreparedIff(es, g, roots, At(r, g));
    if r.path in ByPath(rows) {
      PreparedIff(es, g, roots, ByPath(rows)[r.path]);
      var q :| Remains(q, es, roots) && ByPath(rows)[r.path] == At(q, g);
      OneRowPerPath(es, r, q);
    }
    if Remains(r, es, roots) {
      assert At(r, g) in rows;
    }
  }

  lemma LocalRowsLaw(es: seq<Entry>, g: nat, roots: seq<string>)
    requires DistinctPaths(es)
    ensures LocalRows(LocalIndex(Prepared(es, g, roots)), es, g, roots)
  {
    var rows := Prepared(es, g, roots);
    forall r | r in es
      ensures var c := LocalIndex(rows);
        (r.path in c <==> Remains(r, es, roots) && Projectable(r)) && (r.path in c ==> c[r.path] == At(r, g))
    {
      LocalRow(es, g, roots, r);
    }
    IndexFacts(rows);
    forall p | p in LocalIndex(rows) ensures p in PathsOf(es) {
      PreparedIff(es, g, roots, LocalIndex(rows)[p]);
    }
  }

  lemma RemoteRow(es: seq<Entry>, g: nat, roots: seq<string>, r: Entry)
    requires DistinctPaths(es) && r in es
    ensures var c := RemoteIndex(Bounded(es, g, roots));
      && (r.path in c <==> Outside(r, roots) && RemoteProjectable(r))
      && (r.path in c ==> c[r.path] == At(r, g))
  {
    var rows := Bounded(es, g, roots);
    PreparedFacts(es, g, roots);
    RemoteIndexIsPointwise(rows);
    ByPathFinds(rows);
    BoundedIff(es, g, roots, At(r, g));
    if r.path in ByPath(rows) {
      BoundedIff(es, g, roots, ByPath(rows)[r.path]);
      var q :| q in es && Outside(q, roots) && ByPath(rows)[r.path] == At(q, g);
      OneRowPerPath(es, r, q);
    }
    if Outside(r, roots) {
      assert At(r, g) in rows;
    }
  }

  lemma RemoteRowsLaw(es: seq<Entry>, g: nat, roots: seq<string>)
    requires DistinctPaths(es)
    ensures RemoteRows(RemoteIndex(Bounded(es, g, roots)), es, g, roots)
  {
    var rows := Bounded(es, g, roots);
    forall r | r in es
      ensures var c := RemoteIndex(rows);
        (r.path in c <==> Outside(r, roots) && RemoteProjectable(r)) && (r.path in c ==> c[r.path] == At(r, g))
    {
      RemoteRow(es, g, roots, r);
    }
    IndexFacts(rows);
    forall p | p in RemoteIndex(rows) ensures p in PathsOf(es) {
      BoundedIff(es, g, roots, RemoteIndex(rows)[p]);
    }
  }

  // ---- The requests ----

  /** Nothing of the session but its caches and its next generation. */
  predicate SameButCaches(s: Session, s': Session) {
    s'.root == s.root && s'.epoch == s.epoch && s'.boundaryRoots == s.boundaryRoots
  }

  /** A snapshot without a remote row outside the boundaries carries the old ones over, stamped anew. */
  predicate CarriedOver(before: Cache, after: Cache, g: nat) {
    after.Keys == before.Keys && forall p :: p in before ==> after[p] == At(before[p], g)
  }

  lemma AnyBounded(es: seq<Entry>, g: nat, roots: seq<string>)
    ensures Bounded(es, g, roots) != [] <==> exists r :: r in es && Outside(r, roots)
  {
    if r :| r in es && Outside(r, roots) {
      BoundedIff(es, g, roots, At(r, g));
    } else if Bounded(es, g, roots) != [] {
      BoundedIff(es, g, roots, Bounded(es, g, roots)[0]);
    }
  }

  /** The local rows that remain are cached; the remote rows likewise, if any lies outside the boundaries. */
  ghost predicate SnapshotMeans(s: Session, s': Session, scan: Scan) {
    var g, roots := s.nextGeneration, s.boundaryRoots;
    && SameButCaches(s, s') && s'.nextGeneration == g + 1
    && LocalRows(s'.local, scan.local, g, roots)
    && (if exists r :: r in scan.remote && Outside(r, roots) then RemoteRows(s'.remote, scan.remote, g, roots)
        else CarriedOver(s.remote, s'.remote, g))
  }

  lemma SnapshotLaw(s: Session, scan: Scan)
    requires DistinctPaths(scan.local) && DistinctPaths(scan.remote)
    ensures SnapshotMeans(s, TakeSnapshot(s, Some(scan)), scan)
  {
    var g, roots := s.nextGeneration, s.boundaryRoots;
    LocalRowsLaw(scan.local, g, roots);
    RemoteRowsLaw(scan.remote, g, roots);
    AnyBounded(scan.remote, g, roots);
  }

  /** A failed snapshot spends a generation and nothing else. */
  lemma FailedSnapshotLaw(s: Session)
    ensures TakeSnapshot(s, None) == s.(nextGeneration := s.nextGeneration + 1)
  {
  }

  /** Exactly the scan's remotely projectable rows outside the boundaries are cached, and the local cache
      is left alone. */
  ghost predicate CheckMeans(s: Session, s': Session, scan: Scan) {
    && SameButCaches(s, s') && s'.nextGeneration == s.nextGeneration + 1 && s'.local == s.local
    && RemoteRows(s'.remote, scan.remote, s.nextGeneration, s.boundaryRoots)
  }

  lemma CheckRemoteLaw(s: Session, scan: Scan)
    requires DistinctPaths(scan.remote)
    ensures CheckMeans(s, CheckRemote(s, Some(scan)), scan)
    ensures CheckRemote(s, None) == s
  {
    RemoteRowsLaw(scan.remote, s.nextGeneration, s.boundaryRoots);
  }

  /** Exactly the local rows that remain of those found are cached, stamped with the generation planned
      for, and the remote cache is left alone. */
  ghost predicate RecoveryMeans(s: Session, s': Session, generation: nat, rows: seq<Entry>) {
    && SameButCaches(s, s') && s'.nextGeneration == s.nextGeneration + 1 && s'.remote == s.remote
    && LocalRows(s'.local, rows, generation, s.boundaryRoots)
  }

  lemma RecoveryLaw(s: Session, generation: nat, rows: seq<Entry>)
    requires DistinctPaths(rows)
    ensures RecoveryMeans(s, Recovered(s, generation, s.boundaryRoots, rows), generation, rows)
  {
    LocalRowsLaw(rows, generation, s.boundaryRoots);
  }

  // ---- Counts ----

  /** A count reaches the client modulo 2^32, as a signed 32-bit number; below 2^31 it is unchanged. */
  lemma CountLaw(n: nat)
    ensures -0x8000_0000 <= AsI32(n) < 0x8000_0000 && (n - AsI32(n)) % 0x1_0000_0000 == 0
    ensures AsI32(n) == n <==> n < 0x8000_0000
  {
    assert n == n / 0x1_0000_0000 * 0x1_0000_0000 + n % 0x1_0000_0000;
  }
}
