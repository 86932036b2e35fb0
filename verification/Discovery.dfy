/** Looking for nested working copies below a workspace root: the directory walk, the order of what it
    finds, and the choice of each candidate's parent. */
module Discovery {
  import opened Collections
  import opened Paths

  const ADMIN_DIR := ".svn"

  /** A directory tree as the walk sees it: links and files left out. */
  datatype Directory = Directory(versioned: bool, entries: seq<Entry>)

  datatype Entry = Entry(name: string, directory: Directory)

  /** A path below the workspace root, by components. */
  type Path = seq<string>

  // ---- What the walk should find ----

  predicate Entered(path: Path, ignored: Path -> bool) { path != [] && path[|path| - 1] != ADMIN_DIR && !ignored(path) }

  /** The hints at and below one entry of the directory at `path`, with `depth` levels to go. */
  function EntryHints(e: Entry, path: Path, depth: nat, ignored: Path -> bool): multiset<Path>
    requires depth > 0
    decreases depth, 0
  {
    var child := path + [e.name];
    if !Entered(child, ignored) then multiset{}
    else
      (if e.directory.versioned then multiset{child} else multiset{})
      + HintsOf(e.directory.entries, child, depth - 1, ignored)
  }

  function HintsOf(entries: seq<Entry>, path: Path, depth: nat, ignored: Path -> bool): multiset<Path>
    decreases depth, |entries|
  {
    if entries == [] || depth == 0 then multiset{}
    else
      HintsOf(entries[..|entries| - 1], path, depth, ignored)
      + EntryHints(entries[|entries| - 1], path, depth, ignored)
  }

  /** How many directories the walk visits at and below one entry. */
  function EntryVisits(e: Entry, path: Path, depth: nat, ignored: Path -> bool): nat
    requires depth > 0
    decreases depth, 0
  {
    var child := path + [e.name];
    if Entered(child, ignored) then 1 + Visits(e.directory.entries, child, depth - 1, ignored) else 0
  }

  function Visits(entries: seq<Entry>, path: Path, depth: nat, ignored: Path -> bool): nat
    decreases depth, |entries|
  {
    if entries == [] || depth == 0 then 0
    else
      Visits(entries[..|entries| - 1], path, depth, ignored)
      + EntryVisits(entries[|entries| - 1], path, depth, ignored)
  }

  // ---- The walk ----

  datatype Job = Job(directory: Directory, path: Path, depth: nat)

  function JobHints(job: Job, limit: nat, ignored: Path -> bool): multiset<Path> {
    if job.depth >= limit then multiset{} else HintsOf(job.directory.entries, job.path, limit - job.depth, ignored)
  }

  function JobsHints(jobs: seq<Job>, limit: nat, ignored: Path -> bool): multiset<Path> {
    if jobs == [] then multiset{}
    else JobsHints(jobs[..|jobs| - 1], limit, ignored) + JobHints(jobs[|jobs| - 1], limit, ignored)
  }

  function JobVisits(job: Job, limit: nat, ignored: Path -> bool): nat {
    1 + if job.depth >= limit then 0 else Visits(job.directory.entries, job.path, limit - job.depth, ignored)
  }

  function JobsVisits(jobs: seq<Job>, limit: nat, ignored: Path -> bool): nat {
    if jobs == [] then 0
    else JobsVisits(jobs[..|jobs| - 1], limit, ignored) + JobVisits(jobs[|jobs| - 1], limit, ignored)
  }

  lemma {:induction false} JobsConcat(a: seq<Job>, b: seq<Job>, limit: nat, ignored: Path -> bool)
    ensures JobsHints(a + b, limit, ignored) == JobsHints(a, limit, ignored) + JobsHints(b, limit, ignored)
    ensures JobsVisits(a + b, limit, ignored) == JobsVisits(a, limit, ignored) + JobsVisits(b, limit, ignored)
  {
    if b == [] {
      assert a + b == a;
    } else {
      assert (a + b)[..|a + b| - 1] == a + b[..|b| - 1];
      JobsConcat(a, b[..|b| - 1], limit, ignored);
    }
  }

  lemma OneJob(job: Job, limit: nat, ignored: Path -> bool)
    ensures JobsHints([job], limit, ignored) == JobHints(job, limit, ignored)
    ensures JobsVisits([job], limit, ignored) == JobVisits(job, limit, ignored)
  {
    assert [job][..0] == [];
  }

  /** Hints found and jobs left that together make up what is to be found, within so many visits. */
  ghost predicate Covers(hints: seq<Path>, jobs: seq<Job>, limit: nat, ignored: Path -> bool, goal: multiset<Path>,
      visits: nat)
  {
    multiset(hints) + JobsHints(jobs, limit, ignored) == goal && JobsVisits(jobs, limit, ignored) <= visits
  }

  lemma CoversBoth(h1: seq<Path>, j1: seq<Job>, g1: multiset<Path>, v1: nat,
      h2: seq<Path>, j2: seq<Job>, g2: multiset<Path>, v2: nat, limit: nat, ignored: Path -> bool)
    requires Covers(h1, j1, limit, ignored, g1, v1) && Covers(h2, j2, limit, ignored, g2, v2)
    ensures Covers(h1 + h2, j1 + j2, limit, ignored, g1 + g2, v1 + v2)
  {
    JobsConcat(j1, j2, limit, ignored);
    assert multiset(h1 + h2) == multiset(h1) + multiset(h2);
  }

  /** One child: a hint, a further job, both or neither. */
  method ExpandEntry(e: Entry, job: Job, limit: nat, ignored: Path -> bool) returns (hints: seq<Path>, jobs: seq<Job>)
    requires job.depth < limit
    ensures Covers(hints, jobs, limit, ignored,
      EntryHints(e, job.path, limit - job.depth, ignored), EntryVisits(e, job.path, limit - job.depth, ignored))
  {
    hints, jobs := [], [];
    var child := job.path + [e.name];
    if !Entered(child, ignored) {
      return;
    }
    if e.directory.versioned {
      hints := [child];
    }
    if job.depth + 1 < limit {
      jobs := [Job(e.directory, child, job.depth + 1)];
      OneJob(jobs[0], limit, ignored);
    }
  }

  lemma OneMoreEntry(entries: seq<Entry>, i: nat, path: Path, depth: nat, ignored: Path -> bool)
    requires i < |entries| && depth > 0
    ensures HintsOf(entries[..i + 1], path, depth, ignored)
         == HintsOf(entries[..i], path, depth, ignored) + EntryHints(entries[i], path, depth, ignored)
    ensures Visits(entries[..i + 1], path, depth, ignored)
         == Visits(entries[..i], path, depth, ignored) + EntryVisits(entries[i], path, depth, ignored)
  {
    assert entries[..i + 1][..i] == entries[..i];
  }

  /** One directory: its children become hints and further jobs. */
  method Expand(job: Job, limit: nat, ignored: Path -> bool) returns (hints: seq<Path>, jobs: seq<Job>)
    requires job.depth < limit
    ensures Covers(hints, jobs, limit, ignored, JobHints(job, limit, ignored), JobVisits(job, limit, ignored) - 1)
  {
    hints, jobs := [], [];
    var entries, left := job.directory.entries, limit - job.depth;
    for i := 0 to |entries|
      invariant Covers(hints, jobs, limit, ignored,
        HintsOf(entries[..i], job.path, left, ignored), Visits(entries[..i], job.path, left, ignored))
    {
      var newHints, newJobs := ExpandEntry(entries[i], job, limit, ignored);
      CoversBoth(hints, jobs, HintsOf(entries[..i], job.path, left, ignored),
        Visits(entries[..i], job.path, left, ignored),
        newHints, newJobs, EntryHints(entries[i], job.path, left, ignored),
          EntryVisits(entries[i], job.path, left, ignored), limit, ignored);
      OneMoreEntry(entries, i, job.path, left, ignored);
      hints, jobs := hints + newHints, jobs + newJobs;
    }
    assert entries[..|entries|] == entries;
  }

  /** The stack loop ends, and finds what it should. */
  method NestedHints(root: Directory, limit: nat, ignored: Path -> bool) returns (hints: seq<Path>)
    ensures multiset(hints) == HintsOf(root.entries, [], limit, ignored)
  {
    hints := [];
    if limit == 0 {
      return;
    }
    var pending := [Job(root, [], 0)];
    OneJob(pending[0], limit, ignored);
    while pending != []
      invariant multiset(hints) + JobsHints(pending, limit, ignored) == HintsOf(root.entries, [], limit, ignored)
      decreases JobsVisits(pending, limit, ignored)
    {
      var job, rest := pending[|pending| - 1], pending[..|pending| - 1];
      if job.depth < limit {
        var found, jobs := Expand(job, limit, ignored);
        CoversBoth(hints, rest, multiset(hints) + JobsHints(rest, limit, ignored), JobsVisits(rest, limit, ignored),
          found, jobs, JobHints(job, limit, ignored), JobVisits(job, limit, ignored) - 1, limit, ignored);
        hints, pending := hints + found, rest + jobs;
      } else {
        pending := rest;
      }
    }
  }

  // ---- What a hint is ----

  /** The way from a directory at `path` down `names`, entering every one, ends in a working copy. */
  predicate Leads(entries: seq<Entry>, path: Path, names: Path, ignored: Path -> bool)
    decreases |names|
  {
    names != [] && exists i :: 0 <= i < |entries| && LeadsBy(entries[i], path, names, ignored)
  }

  predicate LeadsBy(e: Entry, path: Path, names: Path, ignored: Path -> bool)
    requires names != []
    decreases |names|, 0
  {
    && e.name == names[0] && Entered(path + [e.name], ignored)
    && if |names| == 1 then e.directory.versioned else Leads(e.directory.entries, path + [e.name], names[1..], ignored)
  }

  predicate Within(p: Path, path: Path, depth: nat) { |path| < |p| <= |path| + depth && path <= p }

  lemma {:induction false} EntryHintIff(e: Entry, path: Path, depth: nat, ignored: Path -> bool, p: Path)
    requires depth > 0
    ensures p in EntryHints(e, path, depth, ignored)
      <==> Within(p, path, depth) && LeadsBy(e, path, p[|path|..], ignored)
    decreases depth, 0
  {
    var child := path + [e.name];
    HintIff(e.directory.entries, child, depth - 1, ignored, p);
    if Within(p, path, depth) && p[|path|] == e.name {
      assert child <= p;
      if |p| == |child| {
        assert p == child;
      } else {
        assert p[|path|..][1..] == p[|child|..];
      }
    }
  }

  /** A path is a hint exactly if it leads to a working copy within the depth, entering neither an
      ignored directory nor an administrative one. */
  lemma {:induction false} HintIff(entries: seq<Entry>, path: Path, depth: nat, ignored: Path -> bool, p: Path)
    ensures p in HintsOf(entries, path, depth, ignored)
      <==> Within(p, path, depth) && Leads(entries, path, p[|path|..], ignored)
    decreases depth, |entries|
  {
    if entries != [] && depth > 0 {
      var front, e := entries[..|entries| - 1], entries[|entries| - 1];
      assert entries == front + [e];
      HintIff(front, path, depth, ignored, p);
      EntryHintIff(e, path, depth, ignored, p);
    }
  }

  /** In a file system no two entries of a directory have the same name. */
  predicate NamesDiffer(entries: seq<Entry>) {
    && (forall i, j :: 0 <= i < j < |entries| ==> entries[i].name != entries[j].name)
    && (forall i :: 0 <= i < |entries| ==> NamesDiffer(entries[i].directory.entries))
  }

  lemma {:induction false} EntryHintOnce(e: Entry, path: Path, depth: nat, ignored: Path -> bool, p: Path)
    requires depth > 0 && NamesDiffer(e.directory.entries)
    ensures EntryHints(e, path, depth, ignored)[p] <= 1
    decreases depth, 0
  {
    var child := path + [e.name];
    HintOnce(e.directory.entries, child, depth - 1, ignored, p);
    HintIff(e.directory.entries, child, depth - 1, ignored, p);
  }

  /** No path is found twice. */
  lemma {:induction false} HintOnce(entries: seq<Entry>, path: Path, depth: nat, ignored: Path -> bool, p: Path)
    requires NamesDiffer(entries)
    ensures HintsOf(entries, path, depth, ignored)[p] <= 1
    decreases depth, |entries|
  {
    if entries != [] && depth > 0 {
      var front, e := entries[..|entries| - 1], entries[|entries| - 1];
      HintOnce(front, path, depth, ignored, p);
      EntryHintOnce(e, path, depth, ignored, p);
      HintIff(front, path, depth, ignored, p);
      EntryHintIff(e, path, depth, ignored, p);
    }
  }

  // ---- The order of the hints ----

  /** A hint and the key of its path. */
  datatype Hint = Hint(path: Path, key: string)

  /** `Path::join` of a relative path: one separator, unless the root ends in one. */
  function JoinedTo(root: string, path: string): string {
    if root == "" || root[|root| - 1] == '/' || (WINDOWS && root[|root| - 1] == '\\') then root + path
    else root + "/" + path
  }

  function HintFor(root: string, path: Path): Hint
    requires path != []
  {
    Hint(path, AbsoluteKey(JoinedTo(root, Join(path))))
  }

  /** Shallow first, and by key among those equally deep. */
  predicate HintLeq(a: Hint, b: Hint) { |a.path| < |b.path| || (|a.path| == |b.path| && StringLeq(a.key, b.key)) }

  predicate AllLeq(a: seq<Hint>, b: seq<Hint>) {
    forall i, j :: 0 <= i < |a| && 0 <= j < |b| ==> HintLeq(a[i], b[j])
  }

  predicate Ordered(hints: seq<Hint>) { forall i, j :: 0 <= i < j < |hints| ==> HintLeq(hints[i], hints[j]) }

  lemma HintLeqIsOrder(a: Hint, b: Hint, c: Hint)
    ensures HintLeq(a, b) || HintLeq(b, a)
    ensures HintLeq(a, b) && HintLeq(b, c) ==> HintLeq(a, c)
  {
    StringLeqIsOrder(a.key, b.key, c.key);
  }

  lemma JoinIsOrdered(a: seq<Hint>, b: seq<Hint>)
    ensures Ordered(a + b) <==> Ordered(a) && Ordered(b) && AllLeq(a, b)
  {
    if Ordered(a + b) {
      assert forall i :: 0 <= i < |a| ==> (a + b)[i] == a[i];
      assert forall i :: 0 <= i < |b| ==> (a + b)[|a| + i] == b[i];
    }
  }

  /** Where a hint belongs among ordered ones. */
  method Place(sorted: seq<Hint>, x: Hint) returns (at: nat)
    requires Ordered(sorted)
    ensures at <= |sorted| && AllLeq(sorted[..at], [x]) && AllLeq([x], sorted[at..])
  {
    at := |sorted|;
    while at > 0 && !HintLeq(sorted[at - 1], x)
      invariant at <= |sorted| && forall k :: at <= k < |sorted| ==> HintLeq(x, sorted[k])
    {
      HintLeqIsOrder(sorted[at - 1], x, x);
      at := at - 1;
    }
    forall k | 0 <= k < at ensures HintLeq(sorted[k], x) {
      HintLeqIsOrder(sorted[k], sorted[at - 1], x);
    }
  }

  lemma InsertionIsOrdered(before: seq<Hint>, x: Hint, behind: seq<Hint>)
    requires Ordered(before + behind) && AllLeq(before, [x]) && AllLeq([x], behind)
    ensures Ordered(before + [x] + behind)
  {
    JoinIsOrdered(before, behind);
    JoinIsOrdered(before, [x]);
    JoinIsOrdered(before + [x], behind);
    forall i, j | 0 <= i < |before + [x]| && 0 <= j < |behind| ensures HintLeq((before + [x])[i], behind[j]) {
      assert [x][0] == x;
    }
  }

  /** The hints in the order in which they are looked at. */
  method SortHints(hints: seq<Hint>) returns (sorted: seq<Hint>)
    ensures multiset(sorted) == multiset(hints) && Ordered(sorted)
  {
    sorted := [];
    for i := 0 to |hints|
      invariant multiset(sorted) == multiset(hints[..i]) && Ordered(sorted)
    {
      assert hints[..i + 1] == hints[..i] + [hints[i]];
      var at := Place(sorted, hints[i]);
      assert sorted == sorted[..at] + sorted[at..];
      InsertionIsOrdered(sorted[..at], hints[i], sorted[at..]);
      sorted := sorted[..at] + [hints[i]] + sorted[at..];
    }
    assert hints[..|hints|] == hints;
  }

  ghost predicate IsHint(root: string, paths: multiset<Path>, h: Hint) {
    h.path in paths && h.path != [] && h == HintFor(root, h.path)
  }

  predicate NoneIsRoot(paths: seq<Path>) { forall i :: 0 <= i < |paths| ==> paths[i] != [] }

  function Keyed(root: string, paths: seq<Path>): (hints: seq<Hint>)
    requires NoneIsRoot(paths)
    ensures |hints| == |paths| && forall i :: 0 <= i < |hints| ==> hints[i] == HintFor(root, paths[i])
  {
    seq(|paths|, i requires 0 <= i < |paths| => HintFor(root, paths[i]))
  }

  lemma KeyedContents(root: string, paths: seq<Path>)
    requires NoneIsRoot(paths)
    ensures forall h :: h in Keyed(root, paths) <==> IsHint(root, multiset(paths), h)
  {
    var hints := Keyed(root, paths);
    forall h ensures h in hints <==> IsHint(root, multiset(paths), h) {
      if IsHint(root, multiset(paths), h) {
        var i :| 0 <= i < |paths| && paths[i] == h.path;
        assert hints[i] == h;
      }
    }
  }

  lemma SameMembers(a: seq<Hint>, b: seq<Hint>)
    requires multiset(a) == multiset(b)
    ensures |a| == |b| && forall h :: h in a <==> h in b
  {
    assert |multiset(a)| == |a| && |multiset(b)| == |b|;
    forall h ensures h in a <==> h in b {
      assert h in a <==> h in multiset(a);
    }
  }

  /** A list repeats nothing exactly if nothing is in it twice. */
  lemma {:induction false} OnceEach<T(!new)>(s: seq<T>)
    ensures (forall x :: multiset(s)[x] <= 1) <==> (forall i, j :: 0 <= i < j < |s| ==> s[i] != s[j])
  {
    if s != [] {
      var front, last := s[..|s| - 1], s[|s| - 1];
      assert s == front + [last];
      OnceEach(front);
      if forall x :: multiset(s)[x] <= 1 {
        assert forall x :: multiset(front)[x] <= multiset(s)[x];
        forall i, j | 0 <= i < j < |s| ensures s[i] != s[j] {
          if j == |s| - 1 {
            assert front[i] in multiset(front) && multiset(s)[last] == multiset(front)[last] + 1;
          }
        }
      }
      if forall i, j :: 0 <= i < j < |s| ==> s[i] != s[j] {
        assert forall i, j :: 0 <= i < j < |front| ==> front[i] == s[i] && front[j] == s[j];
        assert last !in front;
      }
    }
  }

  lemma DifferentPaths(paths: seq<Path>, keyed: seq<Hint>, hints: seq<Hint>)
    requires |keyed| == |paths| && forall i :: 0 <= i < |keyed| ==> keyed[i].path == paths[i]
    requires forall i, j :: 0 <= i < j < |paths| ==> paths[i] != paths[j]
    requires multiset(hints) == multiset(keyed)
    ensures forall h :: multiset(hints)[h] <= 1
  {
    OnceEach(keyed);
  }

  /** The walk and the sort together: every hint with its key, shallow first, and once, if no directory
      has two entries of one name. */
  method NestedWorkingCopyHints(root: string, tree: Directory, limit: nat, ignored: Path -> bool)
      returns (hints: seq<Hint>)
    ensures Ordered(hints) && |hints| == |HintsOf(tree.entries, [], limit, ignored)|
    ensures forall h :: h in hints <==> IsHint(root, HintsOf(tree.entries, [], limit, ignored), h)
    ensures NamesDiffer(tree.entries) ==> forall i, j :: 0 <= i < j < |hints| ==> hints[i] != hints[j]
  {
    var paths := NestedHints(tree, limit, ignored);
    forall i | 0 <= i < |paths| ensures paths[i] != [] {
      assert paths[i] in multiset(paths);
      HintIff(tree.entries, [], limit, ignored, paths[i]);
    }
    var keyed := Keyed(root, paths);
    KeyedContents(root, paths);
    hints := SortHints(keyed);
    SameMembers(hints, keyed);
    if NamesDiffer(tree.entries) {
      forall p ensures multiset(paths)[p] <= 1 {
        HintOnce(tree.entries, [], limit, ignored, p);
      }
      OnceEach(paths);
      DifferentPaths(paths, keyed, hints);
      OnceEach(hints);
    }
  }
}
