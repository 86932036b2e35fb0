/** The loops of the status requests, each proved against its reading in `Status`. */
module StatusRequests {
  import opened Options
  import opened Status

  lemma Prefix<T>(s: seq<T>, i: nat)
    requires i < |s|
    ensures s[..i + 1][..i] == s[..i] && s[..i + 1][i] == s[i] && s[..i + 1] != []
  {
  }

  method IndexLocal(es: seq<Entry>) returns (c: Cache)
    ensures c == LocalIndex(es)
  {
    c := map[];
    for i := 0 to |es|
      invariant c == LocalIndex(es[..i])
    {
      Prefix(es, i);
      if Projectable(es[i]) {
        c := c[es[i].path := es[i]];
      }
    }
    assert es[..|es|] == es;
  }

  method IndexRemote(es: seq<Entry>) returns (c: Cache)
    ensures c == RemoteIndex(es)
  {
    c := map[];
    for i := 0 to |es|
      invariant c == RemoteIndex(es[..i])
    {
      Prefix(es, i);
      if RemoteProjectable(es[i]) {
        c := c[es[i].path := es[i]];
      }
    }
    assert es[..|es|] == es;
  }

  method InsertRows(c: Cache, es: seq<Entry>) returns (r: Cache)
    ensures r == Inserted(c, es)
  {
    r := c;
    for i := 0 to |es|
      invariant r == Inserted(c, es[..i])
    {
      Prefix(es, i);
      if Projectable(es[i]) {
        r := r[es[i].path := es[i]];
      } else {
        r := r - {es[i].path};
      }
    }
    assert es[..|es|] == es;
  }

  /** The covered rows are first collected, then removed one by one unless the scan showed them. */
  method DropUnseen(c: Cache, t: Target, seen: set<string>) returns (r: Cache)
    ensures r == Dropped(c, t, seen)
  {
    var covered := set p | p in c && Covers(t, c[p]) :: c[p].path;
    ghost var gone := set p | p in c && Covers(t, c[p]) && c[p].path !in seen :: c[p].path;
    assert gone == covered - seen;
    r := c;
    var todo := covered;
    while todo != {}
      invariant todo <= covered
      invariant r == c - (covered - todo - seen)
      decreases |todo|
    {
      var path :| path in todo;
      if path !in seen {
        r := r - {path};
      }
      todo := todo - {path};
    }
  }

  /** The merge loop of `status/refresh` over the prepared scans. */
  method MergeAll(c: Cache, scans: Scans) returns (next: Cache)
    ensures next == RefreshedLocal(c, scans)
  {
    next := c;
    var artifacts := CacheArtifacts(c);
    for i := 0 to |scans|
      invariant Merge(next, artifacts) == MergeScans(Merge(c, CacheArtifacts(c)), scans[..i])
    {
      Prefix(scans, i);
      var (target, rows) := scans[i];
      artifacts := artifacts + Artifacts(rows);
      next := Retained(next, artifacts);
      var incoming := Shown(rows, artifacts);
      next := InsertRows(next, incoming);
      next := DropUnseen(next, target, PathsOf(incoming));
    }
    assert scans[..|scans|] == scans;
  }

  predicate AnsweredUpTo(answers: seq<Option<Scan>>, n: nat) { forall i :: 0 <= i < n ==> Answer(answers, i).Some? }

  method AddScan(done: Scans, active: seq<Target>, answers: seq<Option<Scan>>, i: nat, generation: nat,
      roots: seq<string>) returns (longer: Scans)
    requires i < |active| && AnsweredUpTo(answers, i + 1) && done == FirstScans(active, answers, i, generation, roots)
    ensures longer == FirstScans(active, answers, i + 1, generation, roots)
  {
    longer := done + [(active[i], Prepared(Answer(answers, i).value.local, generation, roots))];
  }

  /** The scan loop of `status/refresh`; it stops at the first failed scan. */
  method ScanAll(active: seq<Target>, answers: seq<Option<Scan>>, generation: nat, roots: seq<string>)
      returns (scans: Option<Scans>)
    ensures scans.Some? <==> AllAnswered(active, answers)
    ensures scans.Some? ==> scans.value == PreparedScans(active, answers, generation, roots)
  {
    var done: Scans := [];
    for i := 0 to |active|
      invariant AnsweredUpTo(answers, i) && done == FirstScans(active, answers, i, generation, roots)
    {
      if Answer(answers, i).None? {
        return None;
      }
      done := AddScan(done, active, answers, i, generation, roots);
    }
    return Some(done);
  }

  method CountLocal(es: seq<Entry>) returns (changes: nat, conflicts: nat, unversioned: nat)
    ensures changes == Tally(Changes, es, Artifacts(es))
    ensures conflicts == Tally(Conflicts, es, Artifacts(es))
    ensures unversioned == Tally(UnversionedRows, es, Artifacts(es))
  {
    var artifacts := Artifacts(es);
    changes, conflicts, unversioned := 0, 0, 0;
    for i := 0 to |es|
      invariant changes == Tally(Changes, es[..i], artifacts)
      invariant conflicts == Tally(Conflicts, es[..i], artifacts)
      invariant unversioned == Tally(UnversionedRows, es[..i], artifacts)
    {
      Prefix(es, i);
      var e := es[i];
      if Unversioned(e) && e.path in artifacts {
        continue;
      }
      if Interesting(e) {
        changes := changes + 1;
      }
      if Unversioned(e) {
        unversioned := unversioned + 1;
      }
      if e.conflict.Some? || e.localStatus == "conflicted" {
        conflicts := conflicts + 1;
      }
    }
    assert es[..|es|] == es;
  }

  method CountRemote(es: seq<Entry>) returns (changes: nat)
    ensures changes == Tally(RemoteChanges, es, {})
  {
    changes := 0;
    for i := 0 to |es|
      invariant changes == Tally(RemoteChanges, es[..i], {})
    {
      Prefix(es, i);
      if RemoteProjectable(es[i]) {
        changes := changes + 1;
      }
    }
    assert es[..|es|] == es;
  }

  method Summarize(local: seq<Entry>, remote: seq<Entry>) returns (s: Summary)
    ensures s == ListSummary(local, remote)
  {
    var changes, conflicts, unversioned := CountLocal(local);
    var remoteChanges := CountRemote(remote);
    return Summary(changes, remoteChanges, conflicts, unversioned);
  }
}
