/**
 * The per-category breakdowns of a subtree (by access heat, by file type, by
 * user). The index answers with two parallel maps from label to count and from
 * label to size; the count map also carries the pseudo-label "doc_count". The
 * breakdown pairs them up label by label and keeps only labels with files.
 */
module Breakdowns {
  import opened Common

  /** The pseudo-label the index puts beside the real labels of an aggregation. */
  const DOC_COUNT: string := "doc_count"

  /** Size in bytes and number of files for one label. */
  datatype Category = Category(size: int, count: int)

  /** The two parallel maps of one category aggregation, already taken out of the response. */
  datatype Aggregation = Aggregation(counts: map<string, int>, sizes: map<string, int>)

  /** True when some real label of the aggregation has a count but no size. */
  predicate SizeMissing(agg: Aggregation)
  {
    exists k :: k in agg.counts && k != DOC_COUNT && k !in agg.sizes
  }

  /** The dictionary the loop over the labels fills: every real label paired with its size and count. */
  function Collected(agg: Aggregation): (m: map<string, Category>)
    requires !SizeMissing(agg)
  {
    map k | k in agg.counts && k != DOC_COUNT :: Category(agg.sizes[k], agg.counts[k])
  }

  /** The closing filter: labels whose count is not positive are dropped. */
  function DropEmpty(m: map<string, Category>): map<string, Category>
  {
    map k | k in m && m[k].count > 0 :: m[k]
  }

  /** The re-filter by truthiness: labels whose count is zero are dropped. */
  function KeepNonZero(m: map<string, Category>): map<string, Category>
  {
    map k | k in m && m[k].count != 0 :: m[k]
  }

  /** A breakdown holds no pseudo-label and no label without files. */
  predicate Clean(m: map<string, Category>)
  {
    DOC_COUNT !in m && forall k :: k in m ==> m[k].count > 0
  }

  /** What one breakdown query yields, as `heat`, `types` and `users` compute it. */
  function Breakdown(agg: Aggregation): Result<map<string, Category>, Error>
  {
    if SizeMissing(agg) then Failure(MissingSize) else Success(DropEmpty(Collected(agg)))
  }

  /**
   * A breakdown fails, with the KeyError of a missing size, exactly when a real
   * label lacks a size; otherwise it holds exactly the real labels with a
   * positive count, each with its size and count copied from the two maps.
   */
  lemma BreakdownMeaning(agg: Aggregation)
    ensures Breakdown(agg).Failure? <==> SizeMissing(agg)
    ensures Breakdown(agg).Failure? ==> Breakdown(agg).error == MissingSize
    ensures Breakdown(agg).Success? ==> Clean(Breakdown(agg).value)
    ensures Breakdown(agg).Success? ==> forall k ::
      k in Breakdown(agg).value <==> k in agg.counts && k != DOC_COUNT && agg.counts[k] > 0
    ensures Breakdown(agg).Success? ==> forall k :: k in Breakdown(agg).value ==>
      k in agg.sizes && Breakdown(agg).value[k] == Category(agg.sizes[k], agg.counts[k])
  {
  }

  /**
   * The loop of `heat`, `types` and `users`: visit every label of the count map,
   * skip the pseudo-label, look up the size (failing when it is absent) and
   * store both; then drop the labels without files. Python visits the labels in
   * the count map's order; here the order is arbitrary, which changes nothing
   * in the resulting map.
   */
  method CollectBreakdown(agg: Aggregation) returns (r: Result<map<string, Category>, Error>)
    ensures r == Breakdown(agg)
  {
    var results: map<string, Category> := map[];
    var pending := agg.counts.Keys;
    while pending != {}
      invariant pending <= agg.counts.Keys
      invariant forall k :: k in agg.counts && k !in pending && k != DOC_COUNT ==> k in agg.sizes
      invariant results.Keys == set k | k in agg.counts && k !in pending && k != DOC_COUNT
      invariant forall k :: k in results ==> k in agg.sizes && results[k] == Category(agg.sizes[k], agg.counts[k])
      decreases pending
    {
      var key :| key in pending;
      if key != DOC_COUNT {
        if key !in agg.sizes {
          return Failure(MissingSize);
        }
        results := results[key := Category(agg.sizes[key], agg.counts[key])];
      }
      pending := pending - {key};
    }
    assert results == Collected(agg);
    r := Success(DropEmpty(results));
  }

  /** The truthiness re-filter applied to a breakdown removes nothing. */
  lemma RefilterRemovesNothing(agg: Aggregation)
    requires Breakdown(agg).Success?
    ensures KeepNonZero(Breakdown(agg).value) == Breakdown(agg).value
  {
    BreakdownMeaning(agg);
    var m := Breakdown(agg).value;
    assert KeepNonZero(m).Keys == m.Keys;
  }
}
