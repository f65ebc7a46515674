/**
 * The depth-bounded walk of `main`: a stack of paths seeded with the root; a
 * popped path is reported and expanded only while its number of slashes
 * exceeds the root's by less than the depth; expanding pushes one path per
 * child bucket except the synthetic one.
 */
module Walker {
  import opened Common
  import opened Reconciliation
  import opened NodeAggregator
  import opened Breakdowns

  /** The number of '/' characters in a path. */
  function Slashes(s: string): nat
  {
    if s == [] then 0 else (if s[0] == '/' then 1 else 0) + Slashes(s[1..])
  }

  lemma {:induction false} SlashesConcat(a: string, c: string)
    ensures Slashes(a + c) == Slashes(a) + Slashes(c)
  {
    if a == [] {
      assert a + c == c;
    } else {
      assert (a + c)[1..] == a[1..] + c;
      SlashesConcat(a[1..], c);
    }
  }

  /** The path of a child: its parent, a slash and its key. It lies one slash
      (plus those of the key) deeper, and its parent is a prefix of it. */
  function ChildPath(path: Path, key: string): (c: Path)
    ensures Slashes(c) == Slashes(path) + 1 + Slashes(key)
    ensures path <= c
  {
    SlashesConcat(path, "/");
    SlashesConcat(path + "/", key);
    path + "/" + key
  }

  /**
   * The paths pushed after a directory is reported: one per child bucket, in
   * bucket order, except for buckets named like the synthetic one. Each is
   * strictly deeper than the directory and starts with its path.
   */
  function ChildPaths(path: Path, children: seq<ChildBucket>): (r: seq<Path>)
    ensures |r| <= |children|
    ensures forall c :: c in r ==> Slashes(c) > Slashes(path) && path <= c
    ensures forall c :: c in r ==>
      exists i :: 0 <= i < |children| && children[i].path != UNINDEXED && c == ChildPath(path, children[i].path)
    ensures forall i :: 0 <= i < |children| && children[i].path != UNINDEXED ==>
      ChildPath(path, children[i].path) in r
  {
    if children == [] then []
    else
      var rest := ChildPaths(path, children[1..]);
      assert forall c :: c in rest ==>
        exists i :: 1 <= i < |children| && children[i].path != UNINDEXED && c == ChildPath(path, children[i].path);
      if children[0].path == UNINDEXED then rest
      else [ChildPath(path, children[0].path)] + rest
  }

  /** The paths of two runs of buckets are pushed one run after the other. */
  lemma {:induction false} ChildPathsAppend(path: Path, a: seq<ChildBucket>, c: seq<ChildBucket>)
    ensures ChildPaths(path, a + c) == ChildPaths(path, a) + ChildPaths(path, c)
  {
    if a == [] {
      assert a + c == c;
    } else {
      assert (a + c)[0] == a[0] && (a + c)[1..] == a[1..] + c;
      ChildPathsAppend(path, a[1..], c);
    }
  }

  /** One path is pushed per bucket not named like the synthetic one. */
  lemma {:induction false} ChildPathsCount(path: Path, children: seq<ChildBucket>)
    ensures |ChildPaths(path, children)| == |children| - CountNamed(children, UNINDEXED)
  {
    if children != [] {
      ChildPathsCount(path, children[1..]);
    }
  }

  /** Without synthetic names, the i-th pushed path is that of the i-th bucket. */
  lemma {:induction false} ChildPathsInOrder(path: Path, children: seq<ChildBucket>)
    requires CountNamed(children, UNINDEXED) == 0
    ensures |ChildPaths(path, children)| == |children|
    ensures forall i :: 0 <= i < |children| ==> ChildPaths(path, children)[i] == ChildPath(path, children[i].path)
  {
    ChildPathsCount(path, children);
    if children != [] {
      ChildPathsInOrder(path, children[1..]);
    }
  }

  /** Appending a synthetic bucket adds no path to push. */
  lemma {:induction false} ChildPathsSkipSynthetic(path: Path, cs: seq<ChildBucket>, x: ChildBucket)
    requires x.path == UNINDEXED
    ensures ChildPaths(path, cs + [x]) == ChildPaths(path, cs)
  {
    if cs == [] {
      assert ([] + [x])[1..] == [];
    } else {
      assert (cs + [x])[1..] == cs[1..] + [x];
      ChildPathsSkipSynthetic(path, cs[1..], x);
    }
  }

  /** The walk expands a reconciled directory into exactly the paths of the
      buckets the index reported: reconciliation never adds a path to visit. */
  lemma ReconciledChildPaths(path: Path, buckets: seq<ChildBucket>, totalSize: int, totalCount: int)
    ensures ChildPaths(path, Reconcile(buckets, totalSize, totalCount)) == ChildPaths(path, buckets)
  {
    var r := Reconcile(buckets, totalSize, totalCount);
    if |r| == |buckets| + 1 {
      assert r == buckets + [r[|buckets|]];
      ChildPathsSkipSynthetic(path, buckets, r[|buckets|]);
    }
  }

  /** How many more levels the walk processes at and below `path`. */
  function Budget(base: int, depth: int, path: Path): nat
  {
    if Slashes(path) - base < depth then depth - (Slashes(path) - base) else 0
  }

  /** The largest budget of the paths waiting in a queue. */
  function MaxBudget(base: int, depth: int, qs: seq<Path>): nat
  {
    if qs == [] then 0
    else
      var m := MaxBudget(base, depth, qs[..|qs| - 1]);
      var x := Budget(base, depth, qs[|qs| - 1]);
      if m < x then x else m
  }

  lemma {:induction false} MaxBudgetBelow(base: int, depth: int, qs: seq<Path>, bound: nat)
    requires 0 < bound
    requires forall q :: q in qs ==> Budget(base, depth, q) < bound
    ensures MaxBudget(base, depth, qs) < bound
  {
    if qs != [] {
      MaxBudgetBelow(base, depth, qs[..|qs| - 1], bound);
    }
  }

  /**
   * The paths the walk processes when `path` is popped, with the root's slash
   * count `base` and the depth limit `depth`: nothing when the path is too
   * deep; the path alone when its report fails (the walk stops there);
   * otherwise the path and what its children's paths unfold to. It is defined
   * without any visiting order.
   */
  function Unfold(b: Backend, base: int, depth: int, path: Path): multiset<Path>
    decreases Budget(base, depth, path), 0, 0
  {
    if Slashes(path) - base < depth then
      match NodeReportOf(b, path)
      case Failure(_) => multiset{path}
      case Success(n) =>
        var cs := ChildPaths(path, n.children);
        MaxBudgetBelow(base, depth, cs, Budget(base, depth, path));
        multiset{path} + UnfoldAll(b, base, depth, cs)
    else
      multiset{}
  }

  /** What a queue of waiting paths unfolds to. */
  function UnfoldAll(b: Backend, base: int, depth: int, qs: seq<Path>): multiset<Path>
    decreases MaxBudget(base, depth, qs), 1, |qs|
  {
    if qs == [] then multiset{}
    else UnfoldAll(b, base, depth, qs[..|qs| - 1]) + Unfold(b, base, depth, qs[|qs| - 1])
  }

  lemma {:induction false} UnfoldAllAppend(b: Backend, base: int, depth: int, qs: seq<Path>, cs: seq<Path>)
    ensures UnfoldAll(b, base, depth, qs + cs) == UnfoldAll(b, base, depth, qs) + UnfoldAll(b, base, depth, cs)
    decreases |cs|
  {
    if cs == [] {
      assert qs + cs == qs;
    } else {
      assert (qs + cs)[..|qs + cs| - 1] == qs + cs[..|cs| - 1];
      UnfoldAllAppend(b, base, depth, qs, cs[..|cs| - 1]);
    }
  }

  /** What a queue of waiting paths unfolds to depends only on which paths
      wait (as a multiset), not on the order they wait in. */
  lemma {:induction false} UnfoldAllOrderFree(b: Backend, base: int, depth: int, qs: seq<Path>, rs: seq<Path>)
    requires multiset(qs) == multiset(rs)
    ensures UnfoldAll(b, base, depth, qs) == UnfoldAll(b, base, depth, rs)
    decreases |qs|
  {
    if qs == [] {
      assert |rs| == |multiset(rs)| == 0;
    } else {
      var x := qs[|qs| - 1];
      var front := qs[..|qs| - 1];
      assert qs == front + [x];
      assert x in multiset(rs);
      var i :| 0 <= i < |rs| && rs[i] == x;
      var left, right := rs[..i], rs[i + 1..];
      assert rs == left + [x] + right;
      assert multiset(qs) == multiset(front) + multiset{x};
      assert multiset(rs) == multiset(left) + multiset{x} + multiset(right);
      assert multiset(left + right) == multiset(left) + multiset(right);
      assert multiset(front) == multiset(qs) - multiset{x};
      assert multiset(left + right) == multiset(rs) - multiset{x};
      UnfoldAllOrderFree(b, base, depth, front, left + right);
      UnfoldAllAppend(b, base, depth, left, right);
      UnfoldAllAppend(b, base, depth, left + [x], right);
      UnfoldAllAppend(b, base, depth, left, [x]);
      assert [x][..0] == [];
    }
  }

  /** A path found in what a queue unfolds to comes from one of its paths. */
  lemma {:induction false} UnfoldAllMember(b: Backend, base: int, depth: int, qs: seq<Path>, x: Path)
    returns (q: Path)
    requires x in UnfoldAll(b, base, depth, qs)
    ensures q in qs && x in Unfold(b, base, depth, q)
    decreases |qs|
  {
    var last := qs[|qs| - 1];
    if x in Unfold(b, base, depth, last) {
      q := last;
    } else {
      q := UnfoldAllMember(b, base, depth, qs[..|qs| - 1], x);
    }
  }

  /** Every processed path lies above the depth limit and below the path the
      unfolding started from. */
  lemma {:induction false} UnfoldWithinDepth(b: Backend, base: int, depth: int, path: Path, x: Path)
    requires x in Unfold(b, base, depth, path)
    ensures Slashes(x) - base < depth
    ensures path <= x
    decreases Budget(base, depth, path)
  {
    if x != path {
      match NodeReportOf(b, path)
      case Success(n) =>
        var cs := ChildPaths(path, n.children);
        var c := UnfoldAllMember(b, base, depth, cs, x);
        UnfoldWithinDepth(b, base, depth, c, x);
        assert x[..|path|] == c[..|path|];
    }
  }

  /** A queue of paths that are all too deep unfolds to nothing. */
  lemma {:induction false} UnfoldAllTooDeep(b: Backend, base: int, depth: int, qs: seq<Path>)
    requires forall q :: q in qs ==> Slashes(q) - base >= depth
    ensures UnfoldAll(b, base, depth, qs) == multiset{}
  {
    if qs != [] {
      UnfoldAllTooDeep(b, base, depth, qs[..|qs| - 1]);
    }
  }

  /** With a positive depth the root is processed; with depth zero or less nothing is. */
  lemma RootGate(b: Backend, root: Path, depth: int)
    ensures depth >= 1 ==> root in Unfold(b, Slashes(root), depth, root)
    ensures depth <= 0 ==> Unfold(b, Slashes(root), depth, root) == multiset{}
  {
  }

  /** With depth one the root is processed once and none of its children is. */
  lemma DepthOneProcessesOnlyRoot(b: Backend, root: Path)
    ensures Unfold(b, Slashes(root), 1, root) == multiset{root}
  {
    match NodeReportOf(b, root)
    case Failure(_) =>
    case Success(n) =>
      UnfoldAllTooDeep(b, Slashes(root), 1, ChildPaths(root, n.children));
  }

  function Pow2(k: nat): nat
  {
    if k == 0 then 1 else 2 * Pow2(k - 1)
  }

  /** A backend in which every directory is covered by a scan, has two
      children named "l" and "r", holds no files of its own and has empty
      breakdowns. */
  function BinaryBackend(): Backend
  {
    Backend(
      path => Some("scan"),
      (path, id) => ChildrenResult([ChildBucket("l", 0, 0, 0, 0), ChildBucket("r", 0, 0, 0, 0)], 0, 1),
      (path, id) => Aggregation(map[], map[]),
      (path, id) => Aggregation(map[], map[]),
      (path, id) => Aggregation(map[], map[]))
  }

  /** The directory `path` is reported, with children "l" and "r" to expand. */
  ghost predicate BinaryAt(b: Backend, path: Path)
  {
    && NodeReportOf(b, path).Success?
    && ChildPaths(path, NodeReportOf(b, path).value.children) == [ChildPath(path, "l"), ChildPath(path, "r")]
  }

  /** Every directory of `b` is as `BinaryAt` says. */
  ghost predicate Binary(b: Backend)
  {
    forall path :: BinaryAt(b, path)
  }

  lemma BinaryReport(path: Path)
    ensures BinaryAt(BinaryBackend(), path)
  {
    var buckets := [ChildBucket("l", 0, 0, 0, 0), ChildBucket("r", 0, 0, 0, 0)];
    assert Reconcile(buckets, 0, 1) == buckets;
    assert Breakdown(Aggregation(map[], map[])) == Success(map[]);
    assert NodeReportOf(BinaryBackend(), path).value.children == buckets;
  }

  lemma BinaryBackendIsBinary()
    ensures Binary(BinaryBackend())
  {
    forall path
      ensures BinaryAt(BinaryBackend(), path)
    {
      BinaryReport(path);
    }
  }

  /** Unfolding a two-path queue unfolds each path. */
  lemma UnfoldPair(b: Backend, base: int, depth: int, x: Path, y: Path)
    ensures UnfoldAll(b, base, depth, [x, y]) == Unfold(b, base, depth, x) + Unfold(b, base, depth, y)
  {
    assert [x, y][..1] == [x];
    assert [x][..0] == [];
    assert UnfoldAll(b, base, depth, [x]) == Unfold(b, base, depth, x);
  }

  /** A binary directory within the limit unfolds to itself and the
      unfoldings of its two children. */
  lemma BinaryUnfoldStep(b: Backend, base: int, depth: int, path: Path)
    requires BinaryAt(b, path)
    requires Slashes(path) - base < depth
    ensures Unfold(b, base, depth, path)
         == multiset{path} + Unfold(b, base, depth, ChildPath(path, "l")) + Unfold(b, base, depth, ChildPath(path, "r"))
    ensures |Unfold(b, base, depth, path)|
         == 1 + |Unfold(b, base, depth, ChildPath(path, "l"))| + |Unfold(b, base, depth, ChildPath(path, "r"))|
  {
    UnfoldPair(b, base, depth, ChildPath(path, "l"), ChildPath(path, "r"));
  }

  /** In a binary hierarchy a path with budget k unfolds to 2^k - 1 paths. */
  lemma {:induction false} BinaryUnfoldCount(b: Backend, base: int, depth: int, path: Path)
    requires Binary(b)
    ensures |Unfold(b, base, depth, path)| == Pow2(Budget(base, depth, path)) - 1
    decreases Budget(base, depth, path)
  {
    if Slashes(path) - base < depth {
      var left, right := ChildPath(path, "l"), ChildPath(path, "r");
      assert BinaryAt(b, path);
      BinaryUnfoldStep(b, base, depth, path);
      var k := Budget(base, depth, path);
      assert Slashes("l") == 0 && Slashes("r") == 0;
      assert Budget(base, depth, left) == k - 1 == Budget(base, depth, right);
      BinaryUnfoldCount(b, base, depth, left);
      BinaryUnfoldCount(b, base, depth, right);
      assert Pow2(k) == 2 * Pow2(k - 1);
    } else {
      assert Unfold(b, base, depth, path) == multiset{};
    }
  }

  /** With depth d the root of a binary hierarchy unfolds to 2^d - 1
      directories, which `Walk` then emits. */
  lemma BinaryWalkCount(root: Path, d: nat)
    ensures |Unfold(BinaryBackend(), Slashes(root), d, root)| == Pow2(d) - 1
  {
    BinaryBackendIsBinary();
    BinaryUnfoldCount(BinaryBackend(), Slashes(root), d, root);
  }

  /** The paths of a sequence of reports, in order. */
  function Paths(rs: seq<NodeReport>): seq<Path>
  {
    if rs == [] then [] else Paths(rs[..|rs| - 1]) + [rs[|rs| - 1].path]
  }

  /** Popping a path that is too deep changes nothing that is processed. */
  lemma DropStep(b: Backend, base: int, depth: int, queue: seq<Path>, path: Path)
    requires Slashes(path) - base >= depth
    ensures UnfoldAll(b, base, depth, queue + [path]) == UnfoldAll(b, base, depth, queue)
  {
    assert (queue + [path])[..|queue|] == queue;
  }

  /** Popping a path that is processed replaces it by its children's paths. */
  lemma ExpandStep(b: Backend, base: int, depth: int, queue: seq<Path>, path: Path, n: NodeReport)
    requires Slashes(path) - base < depth
    requires NodeReportOf(b, path) == Success(n)
    ensures UnfoldAll(b, base, depth, queue + [path])
         == UnfoldAll(b, base, depth, queue + ChildPaths(path, n.children)) + multiset{path}
  {
    assert (queue + [path])[..|queue|] == queue;
    UnfoldAllAppend(b, base, depth, queue, ChildPaths(path, n.children));
  }

  /** Popping a path whose report fails: it alone is processed from it. */
  lemma FailStep(b: Backend, base: int, depth: int, queue: seq<Path>, path: Path)
    requires Slashes(path) - base < depth
    requires NodeReportOf(b, path).Failure?
    ensures UnfoldAll(b, base, depth, queue + [path]) == UnfoldAll(b, base, depth, queue) + multiset{path}
  {
    assert (queue + [path])[..|queue|] == queue;
  }

  /** Every report emitted is the report on its path and lies above the depth limit. */
  ghost predicate EmittedReports(b: Backend, base: int, depth: int, emitted: seq<NodeReport>)
  {
    forall i :: 0 <= i < |emitted| ==>
      NodeReportOf(b, emitted[i].path) == Success(emitted[i]) && Slashes(emitted[i].path) - base < depth
  }

  /** Every question asked so far was about an emitted path. */
  ghost predicate AskedAboutEmitted(emitted: seq<NodeReport>, log: seq<Query>)
  {
    forall i :: 0 <= i < |log| ==> log[i].path in Paths(emitted)
  }

  /**
   * The invariant of the walk towards `goal`, the paths the root unfolds to:
   * the reports emitted are right, the emitted paths and what the waiting paths
   * unfold to make up the goal, and every question was about an emitted path.
   */
  ghost predicate Walked(b: Backend, base: int, depth: int, goal: multiset<Path>,
                         queue: seq<Path>, emitted: seq<NodeReport>, log: seq<Query>)
  {
    && EmittedReports(b, base, depth, emitted)
    && multiset(Paths(emitted)) + UnfoldAll(b, base, depth, queue) == goal
    && AskedAboutEmitted(emitted, log)
  }

  lemma EmitReport(b: Backend, base: int, depth: int, emitted: seq<NodeReport>, n: NodeReport)
    requires EmittedReports(b, base, depth, emitted)
    requires NodeReportOf(b, n.path) == Success(n) && Slashes(n.path) - base < depth
    ensures EmittedReports(b, base, depth, emitted + [n])
  {
  }

  lemma EmitQuestions(emitted: seq<NodeReport>, log: seq<Query>, n: NodeReport, asked: seq<Query>)
    requires AskedAboutEmitted(emitted, log)
    requires forall i :: 0 <= i < |asked| ==> asked[i].path == n.path
    ensures AskedAboutEmitted(emitted + [n], log + asked)
  {
    assert Paths(emitted + [n]) == Paths(emitted) + [n.path];
  }

  /** Popping a path that is too deep keeps the invariant. */
  lemma WalkedDrop(b: Backend, base: int, depth: int, goal: multiset<Path>,
                   queue: seq<Path>, path: Path, emitted: seq<NodeReport>, log: seq<Query>)
    requires Walked(b, base, depth, goal, queue + [path], emitted, log)
    requires Slashes(path) - base >= depth
    ensures Walked(b, base, depth, goal, queue, emitted, log)
    ensures UnfoldAll(b, base, depth, queue) == UnfoldAll(b, base, depth, queue + [path])
  {
    DropStep(b, base, depth, queue, path);
  }

  /** Emitting a processed path and pushing its children keeps the invariant. */
  lemma WalkedEmit(b: Backend, base: int, depth: int, goal: multiset<Path>,
                   queue: seq<Path>, path: Path, emitted: seq<NodeReport>, log: seq<Query>,
                   n: NodeReport, asked: seq<Query>)
    requires Walked(b, base, depth, goal, queue + [path], emitted, log)
    requires Slashes(path) - base < depth
    requires NodeReportOf(b, path) == Success(n) && n.path == path
    requires forall i :: 0 <= i < |asked| ==> asked[i].path == path
    ensures Walked(b, base, depth, goal, queue + ChildPaths(path, n.children), emitted + [n], log + asked)
    ensures |UnfoldAll(b, base, depth, queue + ChildPaths(path, n.children))|
          < |UnfoldAll(b, base, depth, queue + [path])|
  {
    ExpandStep(b, base, depth, queue, path, n);
    EmitReport(b, base, depth, emitted, n);
    EmitQuestions(emitted, log, n, asked);
    assert Paths(emitted + [n]) == Paths(emitted) + [path];
  }

  /** The path whose report fails is among the goal, beside everything emitted. */
  lemma WalkedFail(b: Backend, base: int, depth: int, goal: multiset<Path>,
                   queue: seq<Path>, path: Path, emitted: seq<NodeReport>, log: seq<Query>,
                   asked: seq<Query>)
    requires Walked(b, base, depth, goal, queue + [path], emitted, log)
    requires Slashes(path) - base < depth
    requires NodeReportOf(b, path).Failure?
    requires forall i :: 0 <= i < |asked| ==> asked[i].path == path
    ensures EmittedReports(b, base, depth, emitted)
    ensures multiset(Paths(emitted)) + multiset{path} <= goal
    ensures forall i :: 0 <= i < |log + asked| ==> (log + asked)[i].path in goal
  {
    FailStep(b, base, depth, queue, path);
    assert forall i :: 0 <= i < |log| ==> log[i].path in multiset(Paths(emitted));
  }

  /** Every question of a prefix of the plan for a path is about that path. */
  lemma PlanPrefixAboutPath(path: Path, scan: Option<ScanId>, k: nat)
    requires k <= |QueryPlan(path, scan)|
    ensures forall i :: 0 <= i < k ==> QueryPlan(path, scan)[..k][i].path == path
  {
  }

  /** Every aggregate question uses the scan found for its path, so none is
      asked about a path that no scan covers. */
  ghost predicate ScopedQueries(b: Backend, log: seq<Query>)
  {
    forall i :: 0 <= i < |log| && !log[i].ScanLookup? ==> b.latestScanId(log[i].path) == Some(log[i].scan)
  }

  /** The questions `tree` asks about a path are scoped to its scan. */
  lemma PlanPrefixScoped(b: Backend, path: Path, log: seq<Query>, k: nat)
    requires k <= |QueryPlan(path, b.latestScanId(path))|
    requires ScopedQueries(b, log)
    ensures ScopedQueries(b, log + QueryPlan(path, b.latestScanId(path))[..k])
  {
  }

  /** When nothing waits, the emitted paths are the goal. */
  lemma WalkedDone(b: Backend, base: int, depth: int, goal: multiset<Path>,
                   emitted: seq<NodeReport>, log: seq<Query>)
    requires Walked(b, base, depth, goal, [], emitted, log)
    ensures EmittedReports(b, base, depth, emitted)
    ensures multiset(Paths(emitted)) == goal
    ensures forall i :: 0 <= i < |log| ==> log[i].path in goal
  {
  }

  /**
   * One round of the loop of `main`: the most recently pushed path is taken
   * off the queue; a path at or beyond the depth limit is dropped; otherwise
   * its report is built, and either the round stops on its failure or the
   * report is emitted and the paths of its children are pushed.
   */
  method Visit(b: Backend, base: int, depth: int, ghost goal: multiset<Path>,
               queue: seq<Path>, emitted: seq<NodeReport>, log: seq<Query>)
    returns (queue': seq<Path>, emitted': seq<NodeReport>, log': seq<Query>, failure: Option<Error>)
    requires queue != []
    requires Walked(b, base, depth, goal, queue, emitted, log)
    requires ScopedQueries(b, log)
    ensures ScopedQueries(b, log')
    ensures var p := queue[|queue| - 1];
      Slashes(p) - base >= depth ==>
        failure.None? && queue' == queue[..|queue| - 1] && emitted' == emitted && log' == log
    ensures var p := queue[|queue| - 1];
      Slashes(p) - base < depth ==>
        && |log| < |log'| <= |log| + |QueryPlan(p, b.latestScanId(p))|
        && log' == log + QueryPlan(p, b.latestScanId(p))[..|log'| - |log|]
        && (b.latestScanId(p).None? ==> log' == log + [ScanLookup(p)])
        && (NodeReportOf(b, p).Failure? ==> failure == Some(NodeReportOf(b, p).error) && emitted' == emitted)
        && (NodeReportOf(b, p).Success? ==>
              && failure.None?
              && queue' == queue[..|queue| - 1] + ChildPaths(p, NodeReportOf(b, p).value.children)
              && emitted' == emitted + [NodeReportOf(b, p).value])
    ensures failure.None? ==> Walked(b, base, depth, goal, queue', emitted', log')
    ensures failure.None? ==>
      || |UnfoldAll(b, base, depth, queue')| < |UnfoldAll(b, base, depth, queue)|
      || (|UnfoldAll(b, base, depth, queue')| == |UnfoldAll(b, base, depth, queue)| && |queue'| < |queue|)
    ensures failure.Some? ==> EmittedReports(b, base, depth, emitted')
    ensures failure.Some? ==> exists p ::
      && multiset(Paths(emitted')) + multiset{p} <= goal
      && NodeReportOf(b, p) == Failure(failure.value)
    ensures failure.Some? ==> forall i :: 0 <= i < |log'| ==> log'[i].path in goal
  {
    var path := queue[|queue| - 1];
    var rest := queue[..|queue| - 1];
    assert queue == rest + [path];
    if Slashes(path) - base < depth {
      var data, asked := Tree(b, path);
      PlanPrefixAboutPath(path, b.latestScanId(path), |asked|);
      PlanPrefixScoped(b, path, log, |asked|);
      if data.Failure? {
        WalkedFail(b, base, depth, goal, rest, path, emitted, log, asked);
        queue', emitted', log', failure := rest, emitted, log + asked, Some(data.error);
        return;
      }
      WalkedEmit(b, base, depth, goal, rest, path, emitted, log, data.value, asked);
      queue', emitted', log', failure :=
        rest + ChildPaths(path, data.value.children), emitted + [data.value], log + asked, None;
    } else {
      WalkedDrop(b, base, depth, goal, rest, path, emitted, log);
      queue', emitted', log', failure := rest, emitted, log, None;
    }
  }

  /**
   * The loop of `main`, with the emitter left abstract: `emitted` is the
   * sequence of reports handed to it, in order. Every report emitted is the
   * report on its path and lies above the depth limit. When no report fails,
   * the emitted paths are exactly those the root unfolds to; otherwise the walk
   * stops at a path the root unfolds to, whose report failed. No question is
   * ever asked about a path the root does not unfold to.
   */
  method Walk(b: Backend, root: Path, depth: int)
    returns (emitted: seq<NodeReport>, failure: Option<Error>, log: seq<Query>)
    ensures EmittedReports(b, Slashes(root), depth, emitted)
    ensures failure.None? ==> multiset(Paths(emitted)) == Unfold(b, Slashes(root), depth, root)
    ensures failure.Some? ==> exists p ::
      && multiset(Paths(emitted)) + multiset{p} <= Unfold(b, Slashes(root), depth, root)
      && NodeReportOf(b, p) == Failure(failure.value)
    ensures forall i :: 0 <= i < |log| ==> log[i].path in Unfold(b, Slashes(root), depth, root)
    ensures ScopedQueries(b, log)
    ensures depth >= 1 && b.latestScanId(root).None? ==>
      emitted == [] && failure == Some(NoScan) && log == [ScanLookup(root)]
  {
    var base := Slashes(root);
    ghost var goal := Unfold(b, base, depth, root);
    var queue := [root];
    emitted, failure, log := [], None, [];
    assert queue[..0] == [];
    while queue != []
      invariant failure.None?
      invariant Walked(b, base, depth, goal, queue, emitted, log)
      invariant ScopedQueries(b, log)
      invariant depth >= 1 && b.latestScanId(root).None? ==> queue == [root] && emitted == [] && log == []
      decreases |UnfoldAll(b, base, depth, queue)|, |queue|
    {
      queue, emitted, log, failure := Visit(b, base, depth, goal, queue, emitted, log);
      if failure.Some? {
        ghost var p :| multiset(Paths(emitted)) + multiset{p} <= goal && NodeReportOf(b, p) == Failure(failure.value);
        return;
      }
    }
    WalkedDone(b, base, depth, goal, emitted, log);
  }

  /**
   * `main` after the configuration is read: the walk runs when the output type
   * is "pdf" or "csv" (the two branches differ only in the emitter) and nothing
   * at all happens for any other output type.
   */
  method Run(b: Backend, root: Path, depth: int, outputType: string)
    returns (emitted: seq<NodeReport>, failure: Option<Error>, log: seq<Query>)
    ensures outputType != "pdf" && outputType != "csv" ==> emitted == [] && failure.None? && log == []
    ensures failure.None? ==>
      (multiset(Paths(emitted)) ==
       if outputType == "pdf" || outputType == "csv" then Unfold(b, Slashes(root), depth, root) else multiset{})
    ensures EmittedReports(b, Slashes(root), depth, emitted)
    ensures forall i :: 0 <= i < |log| ==> log[i].path in Unfold(b, Slashes(root), depth, root)
    ensures ScopedQueries(b, log)
    ensures (outputType == "pdf" || outputType == "csv") && depth >= 1 && b.latestScanId(root).None? ==>
      emitted == [] && failure == Some(NoScan) && log == [ScanLookup(root)]
  {
    if outputType == "pdf" || outputType == "csv" {
      emitted, failure, log := Walk(b, root, depth);
    } else {
      emitted, failure, log := [], None, [];
    }
  }
}
