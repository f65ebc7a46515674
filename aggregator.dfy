/**
 * The report for one directory (`tree`): resolve the latest scan of the path,
 * ask the index for the children and subtree totals, reconcile them, and ask
 * for the heat, file-type and user breakdowns.
 */
module NodeAggregator {
  import opened Common
  import opened Reconciliation
  import opened Breakdowns

  /** The children aggregation of a path, already taken out of the response. */
  datatype ChildrenResult = ChildrenResult(buckets: seq<ChildBucket>, totalSize: int, totalCount: int)

  /**
   * The search backend, as the answers it gives. The status index and the data
   * index named by the configuration are fixed for a run, so every question is
   * asked of a path (and, after the first, of a scan id).
   */
  datatype Backend = Backend(
    latestScanId: Path -> Option<ScanId>,
    children: (Path, ScanId) -> ChildrenResult,
    hotness: (Path, ScanId) -> Aggregation,
    filetypes: (Path, ScanId) -> Aggregation,
    users: (Path, ScanId) -> Aggregation)

  /** One question put to the backend. */
  datatype Query =
    | ScanLookup(path: Path)
    | ChildrenQuery(path: Path, scan: ScanId)
    | HotnessQuery(path: Path, scan: ScanId)
    | FiletypesQuery(path: Path, scan: ScanId)
    | UsersQuery(path: Path, scan: ScanId)

  /** The report on one directory handed to the emitter. */
  datatype NodeReport = NodeReport(
    path: Path,
    children: seq<ChildBucket>,
    totalSize: int,
    totalCount: int,
    users: map<string, Category>,
    filetypes: map<string, Category>,
    heat: map<string, Category>,
    scanId: ScanId)

  /** What every report satisfies: the children never account for fewer files
      than the subtree holds (less the directory itself), and no breakdown holds
      the pseudo-label or a label without files. */
  predicate WellFormed(n: NodeReport)
  {
    && SumCount(n.children) >= n.totalCount - 1
    && Clean(n.users) && Clean(n.filetypes) && Clean(n.heat)
  }

  /** The questions `tree` asks, in order, when none of them fails. */
  function QueryPlan(path: Path, scan: Option<ScanId>): (qs: seq<Query>)
    ensures |qs| == if scan.None? then 1 else 5
    ensures qs[0] == ScanLookup(path)
    ensures forall i :: 0 <= i < |qs| ==> qs[i].path == path
  {
    match scan
    case None => [ScanLookup(path)]
    case Some(id) =>
      [ScanLookup(path), ChildrenQuery(path, id), HotnessQuery(path, id),
       FiletypesQuery(path, id), UsersQuery(path, id)]
  }

  /** The answer the backend gives to a breakdown question. */
  function BreakdownAnswer(b: Backend, q: Query): Aggregation
    requires q.HotnessQuery? || q.FiletypesQuery? || q.UsersQuery?
  {
    match q
    case HotnessQuery(path, id) => b.hotness(path, id)
    case FiletypesQuery(path, id) => b.filetypes(path, id)
    case UsersQuery(path, id) => b.users(path, id)
  }

  /**
   * The report on `path`, following `tree` step by step: no scan fails with
   * NoScan before anything else; otherwise the children are reconciled and the
   * heat, file-type and user breakdowns are built in that order, the first
   * failing one failing the report; heat and file types are re-filtered by
   * non-zero count, users are not.
   */
  function NodeReportOf(b: Backend, path: Path): Result<NodeReport, Error>
  {
    match b.latestScanId(path)
    case None => Failure(NoScan)
    case Some(id) =>
      var resp := b.children(path, id);
      var children := Reconcile(resp.buckets, resp.totalSize, resp.totalCount);
      var heat := Breakdown(b.hotness(path, id));
      var types := Breakdown(b.filetypes(path, id));
      var users := Breakdown(b.users(path, id));
      if heat.Failure? then Failure(heat.error)
      else if types.Failure? then Failure(types.error)
      else if users.Failure? then Failure(users.error)
      else
        Success(NodeReport(path, children, resp.totalSize, resp.totalCount, users.value,
                           KeepNonZero(types.value), KeepNonZero(heat.value), id))
  }

  /**
   * What a report means. It fails with NoScan exactly when no scan covers the
   * path, and otherwise only with a missing size; a report carries the path,
   * the scan it was read from, the subtree totals as the index gave them and
   * the reconciled children, and it is well formed: the re-filter of the heat
   * and file-type breakdowns removed nothing.
   */
  lemma NodeReportOfMeaning(b: Backend, path: Path)
    ensures NodeReportOf(b, path) == Failure(NoScan) <==> b.latestScanId(path).None?
    ensures NodeReportOf(b, path).Failure? ==> NodeReportOf(b, path).error in {NoScan, MissingSize}
    ensures NodeReportOf(b, path).Success? ==>
      var n := NodeReportOf(b, path).value;
      && b.latestScanId(path) == Some(n.scanId)
      && n.path == path
      && var resp := b.children(path, n.scanId);
      && n.totalSize == resp.totalSize
      && n.totalCount == resp.totalCount
      && n.children == Reconcile(resp.buckets, resp.totalSize, resp.totalCount)
      && n.heat == Breakdown(b.hotness(path, n.scanId)).value
      && n.filetypes == Breakdown(b.filetypes(path, n.scanId)).value
      && n.users == Breakdown(b.users(path, n.scanId)).value
      && WellFormed(n)
  {
    match b.latestScanId(path)
    case None =>
    case Some(id) =>
      BreakdownMeaning(b.hotness(path, id));
      BreakdownMeaning(b.filetypes(path, id));
      BreakdownMeaning(b.users(path, id));
      if NodeReportOf(b, path).Success? {
        RefilterRemovesNothing(b.hotness(path, id));
        RefilterRemovesNothing(b.filetypes(path, id));
      }
  }

  /**
   * `tree`: builds the report on `path` and returns the questions it asked. The
   * scan lookup comes first; when it finds nothing, nothing else is asked. A
   * failing breakdown stops the questions there, so the log is always a prefix
   * of the plan whose last question is the first one whose answer broke, and
   * a report that succeeds has asked the whole plan.
   */
  method Tree(b: Backend, path: Path) returns (r: Result<NodeReport, Error>, log: seq<Query>)
    ensures r == NodeReportOf(b, path)
    ensures r.Success? ==> r.value.path == path
    ensures 1 <= |log| <= |QueryPlan(path, b.latestScanId(path))|
    ensures log == QueryPlan(path, b.latestScanId(path))[..|log|]
    ensures b.latestScanId(path).None? ==> log == [ScanLookup(path)]
    ensures r.Success? ==> log == QueryPlan(path, b.latestScanId(path))
    ensures r.Failure? && b.latestScanId(path).Some? ==>
      3 <= |log| && Breakdown(BreakdownAnswer(b, log[|log| - 1])).Failure?
    ensures r.Failure? && b.latestScanId(path).Some? ==>
      forall j :: 2 <= j < |log| - 1 ==> Breakdown(BreakdownAnswer(b, log[j])).Success?
  {
    log := [ScanLookup(path)];
    var scan := b.latestScanId(path);
    if scan.None? {
      return Failure(NoScan), log;
    }
    var id := scan.value;
    ghost var plan := QueryPlan(path, scan);

    log := log + [ChildrenQuery(path, id)];
    var resp := b.children(path, id);
    var children := Reconcile(resp.buckets, resp.totalSize, resp.totalCount);

    log := log + [HotnessQuery(path, id)];
    var heat := CollectBreakdown(b.hotness(path, id));
    if heat.Failure? {
      assert log == plan[..3];
      return Failure(heat.error), log;
    }
    var fileHeats := KeepNonZero(heat.value);

    log := log + [FiletypesQuery(path, id)];
    var types := CollectBreakdown(b.filetypes(path, id));
    if types.Failure? {
      assert log == plan[..4] && log[2] == plan[2];
      return Failure(types.error), log;
    }
    var fileTypes := KeepNonZero(types.value);

    log := log + [UsersQuery(path, id)];
    var users := CollectBreakdown(b.users(path, id));
    if users.Failure? {
      assert log == plan && log[2] == plan[2] && log[3] == plan[3];
      return Failure(users.error), log;
    }
    assert log == plan;
    r := Success(NodeReport(path, children, resp.totalSize, resp.totalCount, users.value,
                            fileTypes, fileHeats, id));
  }
}
