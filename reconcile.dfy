/**
 * The unindexed-remainder reconciliation of one directory: the child buckets
 * reported by the index are compared with the subtree totals, and when the
 * children account for fewer files than the subtree holds (less the directory's
 * own entry), one synthetic bucket carrying the difference is appended.
 */
module Reconciliation {

  /** Name of the synthetic bucket standing for files no child bucket accounts for. */
  const UNINDEXED: string := "__unindexed_children__"

  /** One child of a directory, with its file count, size in bytes, number of
      index documents and (already rounded) mean heat. */
  datatype ChildBucket = ChildBucket(path: string, count: int, size: int, esDocCount: int, meanHeat: int)

  function SumCount(cs: seq<ChildBucket>): int
  {
    if cs == [] then 0 else cs[0].count + SumCount(cs[1..])
  }

  function SumSize(cs: seq<ChildBucket>): int
  {
    if cs == [] then 0 else cs[0].size + SumSize(cs[1..])
  }

  /** Appending a bucket adds its count and size to the sums. */
  lemma {:induction false} SumsAppend(cs: seq<ChildBucket>, x: ChildBucket)
    ensures SumCount(cs + [x]) == SumCount(cs) + x.count
    ensures SumSize(cs + [x]) == SumSize(cs) + x.size
  {
    if cs != [] {
      assert (cs + [x])[1..] == cs[1..] + [x];
      SumsAppend(cs[1..], x);
    }
  }

  /** How many files the subtree holds beyond those the children account for;
      the directory's own index entry is the `- 1`. */
  function BalanceCount(children: seq<ChildBucket>, totalCount: int): int
  {
    (totalCount - 1) - SumCount(children)
  }

  /** How many bytes the subtree holds beyond those the children account for. */
  function BalanceSize(children: seq<ChildBucket>, totalSize: int): int
  {
    totalSize - SumSize(children)
  }

  /** Number of buckets in `cs` that carry the synthetic name. */
  function CountNamed(cs: seq<ChildBucket>, name: string): nat
  {
    if cs == [] then 0 else (if cs[0].path == name then 1 else 0) + CountNamed(cs[1..], name)
  }

  lemma {:induction false} CountNamedAppend(cs: seq<ChildBucket>, x: ChildBucket, name: string)
    ensures CountNamed(cs + [x], name) == CountNamed(cs, name) + (if x.path == name then 1 else 0)
  {
    if cs != [] {
      assert (cs + [x])[1..] == cs[1..] + [x];
      CountNamedAppend(cs[1..], x, name);
    }
  }

  /**
   * The children list after reconciliation. The buckets from the index are
   * kept, in order, as a prefix; exactly when the count gap is positive one
   * synthetic bucket is appended, which closes the count exactly and the size
   * exactly; otherwise the list is returned unchanged, whatever the size gap.
   */
  function Reconcile(children: seq<ChildBucket>, totalSize: int, totalCount: int): (r: seq<ChildBucket>)
    ensures |children| <= |r| && r[..|children|] == children
    ensures BalanceCount(children, totalCount) > 0 <==> |r| == |children| + 1
    ensures BalanceCount(children, totalCount) <= 0 ==> r == children
    ensures BalanceCount(children, totalCount) > 0 ==>
      r[|children|] == ChildBucket(UNINDEXED, BalanceCount(children, totalCount),
                                   BalanceSize(children, totalSize), 0, 0)
    ensures SumCount(r) == if totalCount - 1 > SumCount(children) then totalCount - 1 else SumCount(children)
    ensures BalanceCount(children, totalCount) > 0 ==> SumSize(r) == totalSize
    ensures CountNamed(r, UNINDEXED) - CountNamed(children, UNINDEXED) == |r| - |children|
    ensures forall i :: |children| <= i < |r| ==> r[i].count > 0
  {
    var balanceSize := BalanceSize(children, totalSize);
    var balanceCount := BalanceCount(children, totalCount);
    if balanceCount > 0 then
      var extra := ChildBucket(UNINDEXED, balanceCount, balanceSize, 0, 0);
      SumsAppend(children, extra);
      CountNamedAppend(children, extra, UNINDEXED);
      assert (children + [extra])[..|children|] == children;
      children + [extra]
    else
      children
  }

  /** A count gap of zero appends nothing, even when 100 bytes are unaccounted for. */
  lemma ZeroCountGapAppendsNothing()
    ensures Reconcile([ChildBucket("x", 5, 400, 5, 0), ChildBucket("y", 5, 500, 5, 0)], 1000, 11)
         == [ChildBucket("x", 5, 400, 5, 0), ChildBucket("y", 5, 500, 5, 0)]
  {
  }

  /** A count gap of one appends a synthetic bucket with that count and the size gap. */
  lemma UnitCountGapAppendsRemainder()
    ensures Reconcile([ChildBucket("x", 5, 400, 5, 0), ChildBucket("y", 5, 500, 5, 0)], 1000, 12)
         == [ChildBucket("x", 5, 400, 5, 0), ChildBucket("y", 5, 500, 5, 0),
             ChildBucket(UNINDEXED, 1, 100, 0, 0)]
  {
  }

  /** The sign of the size gap is never checked: with a positive count gap and
      children larger than the subtree, the synthetic bucket has a negative size. */
  lemma NegativeSizeRemainder()
    ensures var r := Reconcile([ChildBucket("x", 1, 900, 1, 0)], 500, 3);
            |r| == 2 && r[1].path == UNINDEXED && r[1].count == 1 && r[1].size == -400
  {
  }
}
