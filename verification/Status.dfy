/** The cached status of one open repository, and the three requests that change it:
    a snapshot, a partial refresh and a remote check. Recovery replaces it as a snapshot does. */
module Status {
  import opened Options
  import opened Paths

  /** A status row; `detail` stands for the fields the cache only stores and compares. */
  datatype Entry = Entry(
    path: string, kind: string,
    localStatus: string, nodeStatus: string, textStatus: string, propertyStatus: string,
    remoteStatus: string,
    locked: bool, needsLock: bool, switched: bool, depth: string,
    conflict: Option<string>, conflictArtifacts: seq<string>,
    generation: nat, detail: string)

  /** What one bridge call reports. */
  datatype Scan = Scan(local: seq<Entry>, remote: seq<Entry>)

  datatype Target = Target(path: string, depth: string)

  type Cache = map<string, Entry>

  datatype Session = Session(
    root: string, epoch: nat, boundaryRoots: seq<string>,
    nextGeneration: nat, local: Cache, remote: Cache)

  datatype Summary = Summary(localChanges: nat, remoteChanges: nat, conflicts: nat, unversioned: nat)

  datatype SummaryDelta =
    SummaryDelta(localChanges: int, remoteChanges: int, conflicts: int, unversioned: int)

  datatype SnapshotReply =
    SnapshotReply(generation: nat, local: seq<Entry>, remote: seq<Entry>, summary: Summary)

  datatype Delta = Delta(
    generation: nat, upsert: seq<Entry>, remove: seq<string>,
    remoteUpsert: seq<Entry>, remoteRemove: seq<string>, summary: SummaryDelta)

  // ---- Which rows matter ----

  predicate Actionable(status: string) { status != "none" && status != "normal" }

  predicate Interesting(e: Entry) {
    || e.conflict.Some?
    || Actionable(e.localStatus) || Actionable(e.nodeStatus)
    || Actionable(e.textStatus) || Actionable(e.propertyStatus)
  }

  predicate Sparse(depth: string) { depth == "empty" || depth == "files" || depth == "immediates" }

  predicate Projectable(e: Entry) {
    Interesting(e) || e.switched || e.locked || e.needsLock || Sparse(e.depth)
  }

  predicate RemoteProjectable(e: Entry) {
    e.remoteStatus != "none" && e.remoteStatus != "normal" && e.remoteStatus != "notChecked"
  }

  predicate Unversioned(e: Entry) { e.localStatus == "unversioned" }

  /** An unversioned row at a conflict-artifact path is hidden. */
  predicate Visible(e: Entry, artifacts: set<string>) { Unversioned(e) ==> e.path !in artifacts }

  predicate InsideBoundary(path: string, roots: seq<string>) {
    exists i :: 0 <= i < |roots| &&
      (StatusKey(path) == StatusKey(roots[i]) || IsDescendant(StatusKey(path), StatusKey(roots[i])))
  }

  // ---- Lists of rows ----

  function Filter(es: seq<Entry>, keep: Entry -> bool): (r: seq<Entry>)
    ensures forall e :: e in r <==> e in es && keep(e)
  {
    if es == [] then []
    else Filter(es[..|es| - 1], keep) + if keep(es[|es| - 1]) then [es[|es| - 1]] else []
  }

  function Stamped(es: seq<Entry>, generation: nat): (r: seq<Entry>)
    ensures |r| == |es| && forall i :: 0 <= i < |es| ==> r[i] == es[i].(generation := generation)
  {
    seq(|es|, i requires 0 <= i < |es| => es[i].(generation := generation))
  }

  function Artifacts(es: seq<Entry>): set<string> {
    set e, a | e in es && a in e.conflictArtifacts :: a
  }

  function CacheArtifacts(c: Cache): set<string> {
    set p, a | p in c && a in c[p].conflictArtifacts :: a
  }

  function PathsOf(es: seq<Entry>): set<string> { set e | e in es :: e.path }

  predicate DistinctPaths(es: seq<Entry>) {
    forall i, j :: 0 <= i < j < |es| ==> es[i].path != es[j].path
  }

  function Shown(es: seq<Entry>, artifacts: set<string>): seq<Entry> {
    Filter(es, (e: Entry) => Visible(e, artifacts))
  }

  /** Stamping, then `filter_snapshot_boundaries`. */
  function Bounded(es: seq<Entry>, generation: nat, roots: seq<string>): seq<Entry> {
    Filter(Stamped(es, generation), (e: Entry) => !InsideBoundary(e.path, roots))
  }

  /** `Bounded`, then `remove_conflict_artifact_entries`. */
  function Prepared(es: seq<Entry>, generation: nat, roots: seq<string>): seq<Entry> {
    var bounded := Bounded(es, generation, roots);
    Shown(bounded, Artifacts(bounded))
  }

  /** `replace_session_local_entries`: the projectable rows by path, later rows winning. */
  function LocalIndex(es: seq<Entry>): Cache {
    if es == [] then map[]
    else
      var m, e := LocalIndex(es[..|es| - 1]), es[|es| - 1];
      if Projectable(e) then m[e.path := e] else m
  }

  /** `replace_session_remote_entries`. */
  function RemoteIndex(es: seq<Entry>): Cache {
    if es == [] then map[]
    else
      var m, e := RemoteIndex(es[..|es| - 1]), es[|es| - 1];
      if RemoteProjectable(e) then m[e.path := e] else m
  }

  // ---- Coverage ----

  /** `coverage_matches`. */
  predicate Covers(t: Target, e: Entry) {
    var target, path := Slashes(t.path), Slashes(e.path);
    if target == "." then
      path == "." || WithinDepth(t.depth, path, e.kind)
    else
      || path == target
      || (target + "/" <= path && WithinDepth(t.depth, path[|target| + 1..], e.kind))
  }

  predicate WithinDepth(depth: string, rest: string, kind: string) {
    match depth
    case "files" => '/' !in rest && kind == "file"
    case "immediates" => '/' !in rest
    case "infinity" => true
    case _ => false
  }

  // ---- Merging scans into the cache ----

  datatype Merge = Merge(next: Cache, artifacts: set<string>)

  /** The insertion loop of one scan: projectable rows replace, other rows remove. */
  function Inserted(c: Cache, es: seq<Entry>): Cache {
    if es == [] then c
    else
      var m, e := Inserted(c, es[..|es| - 1]), es[|es| - 1];
      if Projectable(e) then m[e.path := e] else m - {e.path}
  }

  /** The `retain` of one scan. */
  function Retained(c: Cache, artifacts: set<string>): Cache {
    map p | p in c && !(Unversioned(c[p]) && p in artifacts) :: c[p]
  }

  /** The loop that removes covered rows the scan did not show. */
  function Dropped(c: Cache, t: Target, seen: set<string>): Cache {
    c - set p | p in c && Covers(t, c[p]) && c[p].path !in seen :: c[p].path
  }

  function MergeScan(m: Merge, t: Target, es: seq<Entry>): Merge {
    var artifacts := m.artifacts + Artifacts(es);
    var incoming := Shown(es, artifacts);
    Merge(Dropped(Inserted(Retained(m.next, artifacts), incoming), t, PathsOf(incoming)), artifacts)
  }

  type Scans = seq<(Target, seq<Entry>)>

  function MergeScans(m: Merge, scans: Scans): Merge {
    if scans == [] then m
    else
      var last := scans[|scans| - 1];
      MergeScan(MergeScans(m, scans[..|scans| - 1]), last.0, last.1)
  }

  function RefreshedLocal(c: Cache, scans: Scans): Cache {
    MergeScans(Merge(c, CacheArtifacts(c)), scans).next
  }

  // ---- Counting ----

  datatype Counter = Changes | Conflicts | UnversionedRows | RemoteChanges

  predicate Counts(k: Counter, e: Entry, artifacts: set<string>) {
    match k
    case Changes => Visible(e, artifacts) && Interesting(e)
    case Conflicts => Visible(e, artifacts) && (e.conflict.Some? || e.localStatus == "conflicted")
    case UnversionedRows => Visible(e, artifacts) && Unversioned(e)
    case RemoteChanges => RemoteProjectable(e)
  }

  function Tally(k: Counter, es: seq<Entry>, artifacts: set<string>): nat {
    if es == [] then 0
    else Tally(k, es[..|es| - 1], artifacts) + if Counts(k, es[|es| - 1], artifacts) then 1 else 0
  }

  /** `summarize_snapshot_entries` over lists. */
  function ListSummary(local: seq<Entry>, remote: seq<Entry>): Summary {
    var artifacts := Artifacts(local);
    Summary(Tally(Changes, local, artifacts), Tally(RemoteChanges, remote, {}),
            Tally(Conflicts, local, artifacts), Tally(UnversionedRows, local, artifacts))
  }

  function CountIn(k: Counter, c: Cache, artifacts: set<string>): nat {
    |set p | p in c && Counts(k, c[p], artifacts)|
  }

  /** The same four counts over the cached maps. */
  function CacheSummary(local: Cache, remote: Cache): Summary {
    var artifacts := CacheArtifacts(local);
    Summary(CountIn(Changes, local, artifacts), CountIn(RemoteChanges, remote, {}),
            CountIn(Conflicts, local, artifacts), CountIn(UnversionedRows, local, artifacts))
  }

  /** `n as i32` for an unsigned 32-bit count. */
  function AsI32(n: nat): int {
    var low := n % 0x1_0000_0000;
    if low < 0x8000_0000 then low else low - 0x1_0000_0000
  }

  /** `summary_delta`. */
  function SummaryChange(before: Summary, after: Summary): SummaryDelta {
    SummaryDelta(AsI32(after.localChanges) - AsI32(before.localChanges),
                 AsI32(after.remoteChanges) - AsI32(before.remoteChanges),
                 AsI32(after.conflicts) - AsI32(before.conflicts),
                 AsI32(after.unversioned) - AsI32(before.unversioned))
  }

  // ---- The requests, as session updates ----

  /** `status/getSnapshot`: the generation is spent even when the bridge fails. */
  function TakeSnapshot(s: Session, outcome: Option<Scan>): Session {
    var g := s.nextGeneration;
    if outcome.None? then s.(nextGeneration := g + 1)
    else
      var remote := Bounded(outcome.value.remote, g, s.boundaryRoots);
      s.(nextGeneration := g + 1,
         local := LocalIndex(Prepared(outcome.value.local, g, s.boundaryRoots)),
         remote := if remote == [] then Restamped(s.remote, g) else RemoteIndex(remote))
  }

  /** The cached remote rows carried into a snapshot that reports none. */
  function Restamped(c: Cache, generation: nat): Cache {
    map p | p in c :: c[p].(generation := generation)
  }

  /** The targets `status/refresh` scans: those outside every boundary. */
  function ActiveTargets(targets: seq<Target>, roots: seq<string>): seq<Target> {
    if targets == [] then []
    else
      var t := targets[|targets| - 1];
      ActiveTargets(targets[..|targets| - 1], roots) + if InsideBoundary(t.path, roots) then [] else [t]
  }

  /** What the bridge answered to the scan of target `i`; a missing answer is a failure. */
  function Answer(answers: seq<Option<Scan>>, i: nat): Option<Scan> {
    if i < |answers| then answers[i] else None
  }

  predicate AllAnswered(active: seq<Target>, answers: seq<Option<Scan>>) {
    forall i :: 0 <= i < |active| ==> Answer(answers, i).Some?
  }

  /** The first `n` scans of one refresh, stamped, bounded and cleared of artifacts. */
  function FirstScans(active: seq<Target>, answers: seq<Option<Scan>>, n: nat, generation: nat,
      roots: seq<string>): (r: Scans)
    requires n <= |active| && forall i :: 0 <= i < n ==> Answer(answers, i).Some?
    ensures |r| == n
  {
    if n == 0 then []
    else
      FirstScans(active, answers, n - 1, generation, roots)
      + [(active[n - 1], Prepared(Answer(answers, n - 1).value.local, generation, roots))]
  }

  function PreparedScans(active: seq<Target>, answers: seq<Option<Scan>>, generation: nat, roots: seq<string>): Scans
    requires AllAnswered(active, answers)
  {
    FirstScans(active, answers, |active|, generation, roots)
  }

  /** `status/refresh`: one failed scan leaves the session alone. */
  function Refresh(s: Session, targets: seq<Target>, answers: seq<Option<Scan>>): Session {
    var active := ActiveTargets(targets, s.boundaryRoots);
    if !AllAnswered(active, answers) then s
    else
      var scans := PreparedScans(active, answers, s.nextGeneration, s.boundaryRoots);
      s.(local := RefreshedLocal(s.local, scans), nextGeneration := s.nextGeneration + 1)
  }

  /** `status/checkRemote` served by the bridge; a failure leaves the session alone. */
  function CheckRemote(s: Session, outcome: Option<Scan>): Session {
    if outcome.None? then s
    else s.(nextGeneration := s.nextGeneration + 1,
            remote := RemoteIndex(Bounded(outcome.value.remote, s.nextGeneration, s.boundaryRoots)))
  }

  /** The cache part of a successful recovery settlement, with the launch plan's generation. */
  function Recovered(s: Session, generation: nat, roots: seq<string>, local: seq<Entry>): Session {
    s.(nextGeneration := s.nextGeneration + 1,
       local := LocalIndex(Prepared(local, generation, roots)))
  }

  // ---- Replies ----

  /** `es` lists the rows of `c`, each once; the order (by path, in the daemon) is left open. */
  ghost predicate ListsRows(es: seq<Entry>, c: Cache) {
    DistinctPaths(es) && forall e :: e in es <==> e.path in c && c[e.path] == e
  }

  /** `changed_upserts` and `removed_paths` between two caches, in any order. */
  ghost predicate Describes(upsert: seq<Entry>, remove: seq<string>, before: Cache, after: Cache) {
    && ListsRows(upsert, map p | p in after && !(p in before && before[p] == after[p]) :: after[p])
    && (forall p :: p in remove <==> p in before && p !in after)
  }

  ghost predicate SnapshotReplyOf(r: SnapshotReply, s: Session, scan: Scan) {
    var g := s.nextGeneration;
    var remote := Bounded(scan.remote, g, s.boundaryRoots);
    && r.generation == g
    && r.local == Prepared(scan.local, g, s.boundaryRoots)
    && (if remote == [] then ListsRows(r.remote, Restamped(s.remote, g)) else r.remote == remote)
    && r.summary == ListSummary(r.local, r.remote)
  }

  /** The delta that takes a client from `s` to `s'`. */
  ghost predicate DeltaOf(d: Delta, s: Session, s': Session) {
    && d.generation == s.nextGeneration
    && Describes(d.upsert, d.remove, s.local, s'.local)
    && Describes(d.remoteUpsert, d.remoteRemove, s.remote, s'.remote)
    && d.summary == SummaryChange(CacheSummary(s.local, s.remote), CacheSummary(s'.local, s'.remote))
  }
}
