# scan_report: the directory walk and per-directory report, in Dafny

`scan_report` builds a filesystem-usage report from data that an external
scanner has already indexed into Elasticsearch. Starting from a root path, it
walks the directory hierarchy down to a depth limit. For every directory it
visits, it builds one report (`tree`):

- the scan that covers the directory;
- its immediate children, each with a file count and a size;
- the totals of the whole subtree;
- three breakdowns of the subtree: by access heat, by file type and by user.

Each report goes to an emitter (`draw_row` for the PDF output, or `to_csv`, which writes a block of labelled CSV tables).

This project models that core:

- `common.dfy` (`Common`): paths, scan ids, `Option`/`Result`, and the two
  ways a report fails.
  - `NoScan`: the `ValueError` raised when no scan covers the path.
  - `MissingSize`: the `KeyError` raised when a breakdown label has a count
    but no size.
- `reconcile.dfy` (`Reconciliation`): the unindexed-remainder reconciliation.
  - When the children account for fewer files than the subtree holds (less the
    directory's own entry), one synthetic `__unindexed_children__` bucket
    carrying the count gap and the size gap is appended.
  - Otherwise the children are left alone.
- `breakdown.dfy` (`Breakdowns`): `heat`, `types` and `users`.
  - Each pairs the count map and the size map of an aggregation label by
    label, skipping the pseudo-label `doc_count`.
  - Each then drops every label whose count is not positive.
  - `CollectBreakdown` is the loop itself. It is proved equal to the
    specification function `Breakdown`.
- `aggregator.dfy` (`NodeAggregator`): `tree`.
  - The backend is a value of total functions: one per query the program
    makes (`latest_scan_id`, `children`, `hotness`, `filetypes`, `users`).
  - `NodeReportOf` states what a report is.
  - The method `Tree` computes the report in the program's order, and also
    returns the log of the questions it put to the backend.
- `walker.dfy` (`Walker`): the loop of `main`, with the emitter left abstract.
  - It keeps a LIFO stack of paths.
  - It drops a path whose slash count exceeds the root's by `depth` or more.
  - Otherwise it builds the path's report, pushes `path/child` for every child
    except the synthetic one, and emits the report.
  - The set of processed paths is specified independently of the pop order,
    by `Unfold`. `Unfold(root)` is the root plus, when the root's report
    succeeds, the unfoldings of its non-synthetic children, cut off at the
    depth limit.
  - `Walk` is proved to emit exactly `Unfold(root)` when no report fails.
  - `UnfoldAllOrderFree` shows that what a queue of waiting paths unfolds to
    depends only on the multiset of those paths, not on their order. Only
    the program's LIFO walk is modelled; no walk with another pop order is
    proved.

In these places the model follows what `scan_report/cli.py` does:

- The scan id is looked up again for every directory: `tree` calls
  `latest_scan_id` at `scan_report/cli.py:220` on each visit. It is not looked
  up once at the root and reused. A directory with no scan therefore stops the
  walk when it is reached, whichever directory it is.
- The size of the synthetic bucket is never checked. When the count gap is
  positive and the children are larger than the subtree, the bucket's size is
  negative (`Reconciliation.NegativeSizeRemainder`). When the count gap is not
  positive, a nonzero size gap is ignored.
- The depth limit may be any integer. A limit of 0 or less processes nothing
  (`Walker.RootGate`).
- An output type other than `pdf` or `csv` walks nothing and emits nothing.
- Breakdowns drop labels whose count is not positive (`count > 0`), so
  negative counts go too. The extra truthiness re-filter of heat and file
  types then removes nothing. The users breakdown is not re-filtered.

## Model

| member | source | states |
|---|---|---|
| `Reconciliation.Reconcile` | scan_report/cli.py:241-258 | The index's buckets stay, in order, as a prefix. A bucket is appended exactly when `(total_count - 1) - sum(counts) > 0`. It is `__unindexed_children__` with that count, the size gap, doc count 0 and mean heat 0. In that case the count sum becomes `total_count - 1` and the size sum `total_size`. Otherwise the list is unchanged. At most one synthetic bucket is added, and its count is positive. |
| `Reconciliation.ZeroCountGapAppendsNothing` | scan_report/cli.py:246-249 | With children of 5 and 5 files, 400 and 500 bytes, and totals 11 files and 1000 bytes, nothing is appended, although 100 bytes are unaccounted for. |
| `Reconciliation.UnitCountGapAppendsRemainder` | scan_report/cli.py:249-258 | The same children with a total of 12 files get one synthetic bucket of 1 file and 100 bytes. |
| `Reconciliation.NegativeSizeRemainder` | scan_report/cli.py:246-258 | A positive count gap with children larger than the subtree yields a synthetic bucket of size -400. |
| `Breakdowns.BreakdownMeaning` | scan_report/cli.py:276-287 | A breakdown fails, with the missing-size error, exactly when a real label has a count but no size. Otherwise it holds exactly the labels other than `doc_count` whose count is positive, each with its size and count copied unchanged. |
| `Breakdowns.CollectBreakdown` | scan_report/cli.py:279-286 | The loop over the count map's labels (the same loop as lines 293-300 and 307-314) returns exactly `Breakdown` of the aggregation, whatever order it visits the labels in. |
| `Breakdowns.RefilterRemovesNothing` | scan_report/cli.py:260-261 | Re-filtering a successful breakdown by non-zero count gives back the same map. |
| `NodeAggregator.NodeReportOfMeaning` | scan_report/cli.py:219-273 | A report fails with NoScan exactly when no scan covers the path, and otherwise only with a missing size. A successful report carries the path, the scan id, the subtree totals as given, the reconciled children, and the three breakdowns. It is well formed: the child counts sum to at least `total_count - 1`, and no breakdown holds `doc_count` or a label without files. |
| `NodeAggregator.Tree` | scan_report/cli.py:219-273 | Returns `NodeReportOf(path)`. The questions asked are a prefix of scan lookup, children, hotness, file types, users. A missing scan stops everything after the lookup. A successful report has asked all five. A failure after the lookup stops at the first breakdown whose answer lacks a size: heat, then file types, then users. Every breakdown asked before it succeeded. |
| `Walker.ChildPath` | scan_report/cli.py:48 | `path/key` extends `path` and has one more slash than `path`, plus the slashes in `key`. |
| `Walker.ChildPaths` | scan_report/cli.py:47-52 | The pushed paths are exactly `path/key` for the children not named `__unindexed_children__`. Each extends `path` and has strictly more slashes. |
| `Walker.ChildPathsAppend` | scan_report/cli.py:47-51 | The comprehension works bucket by bucket: the paths for two runs of buckets are those of the first run followed by those of the second. |
| `Walker.ChildPathsCount` | scan_report/cli.py:47-51 | Exactly one path is pushed per bucket not named `__unindexed_children__`, duplicates included. |
| `Walker.ChildPathsInOrder` | scan_report/cli.py:47-51 | With no synthetic bucket, the i-th pushed path is `path/key` of the i-th bucket, in bucket order. |
| `Walker.ReconciledChildPaths` | scan_report/cli.py:47-52 | Reconciliation never changes which paths are pushed. |
| `Walker.UnfoldAllOrderFree` | scan_report/cli.py:42-43 | Two waiting queues holding the same paths in any order unfold to the same multiset of processed paths. |
| `Walker.UnfoldWithinDepth` | scan_report/cli.py:45 | Every path a directory unfolds to extends it and lies less than `depth` slashes below the root. |
| `Walker.RootGate` | scan_report/cli.py:36-46 | With `depth >= 1` the root is processed. With `depth <= 0` nothing is. |
| `Walker.DepthOneProcessesOnlyRoot` | scan_report/cli.py:45-52 | With depth 1 the root unfolds to itself alone. With `Walker.Walk`, this means only the root is reported and no question concerns any other path. |
| `Walker.BinaryReport` | scan_report/cli.py:219-258 | In a hierarchy where every directory has the children `l` and `r` and no unaccounted files, every report succeeds and pushes exactly `path/l` and `path/r`. |
| `Walker.BinaryUnfoldStep` | scan_report/cli.py:42-52 | In such a hierarchy, a directory within the limit is processed together with everything its two children unfold to. |
| `Walker.BinaryUnfoldCount` | scan_report/cli.py:42-52 | In such a hierarchy, a directory `k` levels above the limit unfolds to 2^k - 1 directories. |
| `Walker.BinaryWalkCount` | scan_report/cli.py:36-52 | With depth d, the root of the binary hierarchy unfolds to exactly 2^d - 1 directories, which `Walker.Walk` emits, since no report fails there. |
| `Walker.Visit` | scan_report/cli.py:42-52 | One round pops the last path pushed. At or beyond the depth limit, the path is dropped and nothing else changes. Otherwise the round asks a prefix of that path's query plan (only the scan lookup when no scan covers it). If the report fails, the round stops with its error and emits nothing. If it succeeds, the round emits the report and pushes the paths of its children after the remaining stack. Every aggregate question uses the scan found for its own path. When the round does not stop, it keeps the walk invariant: reports emitted so far are the reports of their paths; the emitted paths and what the stack still unfolds to make up `Unfold(root)`; every question asked concerns an emitted path. Each round shrinks what remains to unfold, or else the stack. |
| `Walker.Walk` | scan_report/cli.py:36-52 | Every emitted report is `NodeReportOf` its path and lies above the depth limit. With no failure, the emitted paths are exactly `Unfold(root)`. On a failure, the walk stopped at a path of `Unfold(root)` whose report fails with that error. The emitted paths together with that path stay within `Unfold(root)`. No question is ever asked about a path outside `Unfold(root)`. Every aggregate question uses the scan found for its own path, so none is asked about a path without a scan. With `depth >= 1` and no scan for the root, the walk asks only the root's scan lookup, emits nothing and fails with NoScan. |
| `Walker.Run` | scan_report/cli.py:40-67 | For `pdf` or `csv` it is the walk, with its guarantees: reports, processed paths, questions scoped to their path's scan, and the NoScan failure at a root without a scan. For any other output type nothing is emitted and nothing is asked. |

## Left out

- Rendering: `draw_row`, `to_csv`, the PDF pages, the CSV file, number
  formatting and the `KeyError`/`IndexError` suppression inside them are not
  modelled. The emitter is the sequence of reports it receives, in order.
- The `--brief` flag only changes what `to_csv` writes, so it is not modelled.
- Argument parsing, the TOML configuration file and the Elasticsearch
  connection setup (lines 14-35) are not modelled. The status index and data
  index they name are fixed for a run and absorbed into the backend value.
- The queries themselves (`queries.latest_scan_id`, `queries.children`,
  `queries.hotness`, `queries.filetypes`, `queries.users`) are not part of this
  model. Each becomes a total function of the backend value. Network errors,
  timeouts and answers that change between two queries are not modelled.
- Missing fields in the nested response (`aggregations` → `path` → `children`
  → `buckets`, `value` wrappers) would raise `KeyError` in the program. The
  model receives the fields already taken out, so those failures are not
  modelled.
- The renaming comprehension at lines 227-236 is not modelled. The model starts
  from `ChildBucket` records, and `meanHeat` holds the value after `round`.
  Floating-point values from the index are modelled as integers.
- `Breakdowns.CollectBreakdown`: when several labels lack a size, the program
  raises for the first label in the map's iteration order. The model records
  only that a size was missing, not which label.
- Python dictionary insertion order of the breakdowns is not modelled.
  Breakdowns are maps.
- `Walker.Walk` emits each report before pushing its children, while the
  program pushes first and then emits. Emitting does not touch the stack, so
  the emitted sequence is the same.
- `Walker.Run` does not model that the Elasticsearch connection is opened even
  for an unknown output type.
